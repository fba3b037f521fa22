/**
 * Two bot commands that answer from PagerDuty (`pkg/slack`): the list of open
 * incidents, optionally narrowed to the clusters named in the message, and
 * the people on call today.
 */
module Commands {
  import opened Wrappers
  import opened Strings
  import opened SlackApi
  import opened PagerdutyTypes
  import opened Pagerduty
  import opened Filters
  import ClusterParse
  import SlackTable
  import Auth

  // ---- Open incidents ----------------------------------------------------

  const ListKeywords := ["list incidents", "incident list"]
  const ListDescription := "List currently open PagerDuty incidents."

  /** The clusters a fresh filter takes from the message; a parse failure leaves them unset. */
  function ClustersOf(text: string): Option<seq<string>> {
    var parsed := ClusterParse.ParseClusterFromString(text);
    if parsed.Ok? then Some(parsed.value) else None
  }

  /** The reply when nothing is open: the clusters are named when the filter has any. */
  function NoIncidentsText(clusters: Option<seq<string>>): string {
    "No open incidents" + (if clusters.Some? then " in cluster(s) " + Join(clusters.value, ", ") else "") + " :green_heart:"
  }

  /** One table row per incident: its summary and when it started. */
  function Rows(incidents: seq<Incident>, started: string -> string): (r: seq<seq<string>>)
    ensures |r| == |incidents|
  {
    if incidents == [] then []
    else Rows(incidents[..|incidents| - 1], started) + [[incidents[|incidents| - 1].summary, started(incidents[|incidents| - 1].createdAt)]]
  }

  /** Row `k` is incident `k`'s summary and start. */
  lemma {:induction false} RowAt(incidents: seq<Incident>, started: string -> string, k: nat)
    requires k < |incidents|
    ensures Rows(incidents, started)[k] == [incidents[k].summary, started(incidents[k].createdAt)]
  {
    var init := incidents[..|incidents| - 1];
    if k < |init| {
      RowAt(init, started, k);
      assert init[k] == incidents[k];
    }
  }

  /** The reply for the incidents the filtered listing returned. */
  function IncidentsReply(incidents: Result<seq<Incident>>, started: string -> string, clusters: Option<seq<string>>): Result<Msg> {
    if incidents.Err? then Err(incidents.error)
    else if incidents.value == [] then Ok(TextMsg(NoIncidentsText(clusters)))
    else Ok(SlackTable.ToSlackTable([["Summary", "Started"]] + Rows(incidents.value, started)))
  }

  /**
   * `pagerdutyList.Run` for a listing of the triggered incidents and the
   * clusters the message names; `started` renders a creation date.
   */
  function ListReply(listed: Result<seq<Incident>>, started: string -> string, clusters: Option<seq<string>>): Result<Msg> {
    IncidentsReply(ListedIncidents(listed, clusters, "", true), started, clusters)
  }

  /** A listing error is the command's error. */
  lemma ListErrorReturned(listed: Result<seq<Incident>>, started: string -> string, clusters: Option<seq<string>>)
    requires listed.Err?
    ensures ListReply(listed, started, clusters) == Err(listed.error)
  {
  }

  /** With nothing open in the named clusters, the reply is a text saying so. */
  lemma NothingOpenReply(listed: Result<seq<Incident>>, started: string -> string, clusters: Option<seq<string>>)
    requires listed.Ok? && Kept(clusters, "", listed.value) == []
    ensures ListReply(listed, started, clusters) == Ok(TextMsg(NoIncidentsText(clusters)))
  {
  }

  /** The empty-listing text names clusters exactly when the filter has them. */
  lemma NoIncidentsNamesClusters(clusters: Option<seq<string>>)
    ensures NoIncidentsText(clusters) == "No open incidents :green_heart:" <==> clusters.None?
    ensures clusters.Some? ==> "No open incidents in cluster(s) " + Join(clusters.value, ", ") <= NoIncidentsText(clusters)
  {
    if clusters.Some? {
      var t := NoIncidentsText(clusters);
      assert t[17] == ' ' && t[18] == 'i';
      assert "No open incidents :green_heart:"[18] == ':';
    }
  }

  /** A table whose rows all have two cells has two cells per row. */
  lemma {:induction false} PairCells(rows: seq<seq<string>>)
    requires forall k :: 0 <= k < |rows| ==> |rows[k]| == 2
    ensures SlackTable.Cells(rows) == 2 * |rows|
  {
    if rows != [] {
      PairCells(rows[..|rows| - 1]);
    }
  }

  /** In a table of two-cell rows, row `i` is fields `2i` and `2i + 1`. */
  lemma PairFields(rows: seq<seq<string>>, i: nat)
    requires forall k :: 0 <= k < |rows| ==> |rows[k]| == 2
    requires i < |rows|
    ensures |SlackTable.Flatten(rows)| == 2 * |rows|
    ensures SlackTable.Flatten(rows)[2 * i] == SlackTable.PlainText(rows[i][0])
    ensures SlackTable.Flatten(rows)[2 * i + 1] == SlackTable.PlainText(rows[i][1])
  {
    PairCells(rows);
    SlackTable.FlattenLength(rows);
    var before := rows[..i];
    assert forall k :: 0 <= k < |before| ==> |before[k]| == 2;
    PairCells(before);
    SlackTable.FlattenRowMajor(rows, i, 0);
    SlackTable.FlattenRowMajor(rows, i, 1);
  }

  /** The header cells come first, then the summary and start of each incident, row after row. */
  lemma TableFields(incidents: seq<Incident>, started: string -> string, k: nat)
    requires k < |incidents|
    ensures var fields := SlackTable.Flatten([["Summary", "Started"]] + Rows(incidents, started));
      && |fields| == 2 + 2 * |incidents|
      && fields[0] == SlackTable.PlainText("Summary")
      && fields[1] == SlackTable.PlainText("Started")
      && fields[2 + 2 * k] == SlackTable.PlainText(incidents[k].summary)
      && fields[3 + 2 * k] == SlackTable.PlainText(started(incidents[k].createdAt))
  {
    var body := Rows(incidents, started);
    var rows := [["Summary", "Started"]] + body;
    RowAt(incidents, started, k);
    assert rows[k + 1] == [incidents[k].summary, started(incidents[k].createdAt)];
    forall i | 0 <= i < |rows|
      ensures |rows[i]| == 2
    {
      if i > 0 {
        RowAt(incidents, started, i - 1);
        assert rows[i] == body[i - 1];
      }
    }
    PairFields(rows, 0);
    PairFields(rows, k + 1);
    assert 2 * (k + 1) == 2 + 2 * k;
  }

  /**
   * A non-empty listing is one section of fields: `Summary` and `Started`,
   * then one row per kept incident, in listing order: field `2 + 2k` is the
   * summary of incident `k` and field `3 + 2k` when it started.
   */
  lemma ListTable(listed: Result<seq<Incident>>, started: string -> string, clusters: Option<seq<string>>, k: nat)
    requires listed.Ok?
    requires k < |Kept(clusters, "", listed.value)|
    ensures var incidents := Kept(clusters, "", listed.value);
      var r := ListReply(listed, started, clusters);
      && r.Ok? && r.value.blocks == [Section(None, SlackTable.Flatten([["Summary", "Started"]] + Rows(incidents, started)))]
      && |r.value.blocks[0].fields| == 2 + 2 * |incidents|
      && r.value.blocks[0].fields[2 + 2 * k] == SlackTable.PlainText(incidents[k].summary)
      && r.value.blocks[0].fields[3 + 2 * k] == SlackTable.PlainText(started(incidents[k].createdAt))
  {
    TableFields(Kept(clusters, "", listed.value), started, k);
  }

  /** `pagerdutyList`: the command and the client it asks. */
  class PagerdutyList {
    const pd: PagerdutyClient
    /** `HumanizeTimestamp(StringToTimestamp(…))`. */
    const started: string -> string

    constructor (pd: PagerdutyClient, started: string -> string)
      ensures this.pd == pd && this.started == started
    {
      this.pd := pd;
      this.started := started;
    }

    /** `Run`: the reply to a message asking for the open incidents. */
    method Run(msg: Msg) returns (r: Result<Msg>)
      ensures r == ListReply(pd.api.listIncidents(TriggeredPage), started, ClustersOf(msg.text))
    {
      var f := new Filter(None, "", "", "");
      var _ := f.ClusterFilterFromText(msg.text);
      var incidentList := pd.ListIncidents(f);
      r := Reply(incidentList, f.clusters);
    }

    /** The rest of `Run`, once the incidents are listed: the error, a text when there are none, or a table. */
    method Reply(incidentList: Result<seq<Incident>>, clusters: Option<seq<string>>) returns (r: Result<Msg>)
      ensures r == IncidentsReply(incidentList, started, clusters)
    {
      if incidentList.Err? {
        return Err(incidentList.error);
      }
      var incidents := incidentList.value;
      if |incidents| == 0 {
        var response := "No open incidents";
        if clusters != None {
          response := response + " in cluster(s) " + Join(clusters.value, ", ");
        }
        response := response + " :green_heart:";
        assert response == NoIncidentsText(clusters);
        return Ok(TextMsg(response));
      }
      var table := Table(incidents);
      return Ok(table);
    }

    /** The table part of `Run`: a header row, then one row per incident, in order. */
    method Table(incidents: seq<Incident>) returns (m: Msg)
      ensures m == SlackTable.ToSlackTable([["Summary", "Started"]] + Rows(incidents, started))
    {
      var data := [["Summary", "Started"]];
      for i := 0 to |incidents|
        invariant data == [["Summary", "Started"]] + Rows(incidents[..i], started)
      {
        assert incidents[..i + 1][..i] == incidents[..i];
        data := data + [[incidents[i].summary, started(incidents[i].createdAt)]];
      }
      assert incidents[..|incidents|] == incidents;
      return SlackTable.ToSlackTable(data);
    }
  }

  // ---- Who is on call ------------------------------------------------------

  const ScheduleName := "Managed Service for CCloud API (Two Day Shifts)"
  const OnCallKeywords := ["list oncall", "list on-call", "list on call", "who's on call", "who's on-call"]
  const OnCallDescription := "List on-call persons."
  const OnCallRole := Auth.Base
  const NobodyOnCall := "There's no one on-call right now."

  /** A Slack mention of a user. */
  function MentionOf(id: string): string {
    "<@" + id + ">"
  }

  /** The mentions of the on-call users Slack knows by address, in on-call order. */
  function Mentions(users: seq<User>, userByEmail: string -> Result<SlackUser>): seq<string> {
    if users == [] then []
    else
      var prev := Mentions(users[..|users| - 1], userByEmail);
      var found := userByEmail(users[|users| - 1].email);
      if found.Ok? then prev + [MentionOf(found.value.id)] else prev
  }

  /** Each mention names the Slack user found for some on-call user's address; when every lookup succeeds, there is one per user, in order. */
  lemma {:induction false} MentionsFound(users: seq<User>, userByEmail: string -> Result<SlackUser>)
    ensures |Mentions(users, userByEmail)| <= |users|
    ensures forall k :: 0 <= k < |Mentions(users, userByEmail)| ==>
      exists i :: 0 <= i < |users| && userByEmail(users[i].email).Ok?
        && Mentions(users, userByEmail)[k] == MentionOf(userByEmail(users[i].email).value.id)
    ensures (forall i :: 0 <= i < |users| ==> userByEmail(users[i].email).Ok?) ==>
      |Mentions(users, userByEmail)| == |users|
      && forall i :: 0 <= i < |users| ==> Mentions(users, userByEmail)[i] == MentionOf(userByEmail(users[i].email).value.id)
  {
    if users != [] {
      var init := users[..|users| - 1];
      MentionsFound(init, userByEmail);
      assert forall i :: 0 <= i < |init| ==> init[i] == users[i];
    }
  }

  /** The reply text for today's on-call users. */
  function OnCallText(users: seq<User>, userByEmail: string -> Result<SlackUser>): string {
    if users == [] then NobodyOnCall
    else "Currently on call: " + Join(Mentions(users, userByEmail), ", ")
  }

  /** The reply says nobody is on call exactly when nobody is; otherwise it lists them. */
  lemma OnCallTextShape(users: seq<User>, userByEmail: string -> Result<SlackUser>)
    ensures OnCallText(users, userByEmail) == NobodyOnCall <==> users == []
    ensures users != [] ==> "Currently on call: " <= OnCallText(users, userByEmail)
  {
    if users != [] {
      assert OnCallText(users, userByEmail)[0] == 'C' != NobodyOnCall[0];
    }
  }

  /** `pagerdutyListOnCall.Run`, for what PagerDuty and Slack answer; `since` and `until` bound today. */
  function OnCallReply(api: PagerdutyApi, userByEmail: string -> Result<SlackUser>, since: string, until: string): Result<Msg> {
    var schedule := ScheduleNamed(api.listSchedules(ListSchedulesOptions(100, ScheduleName)), ScheduleName);
    if schedule.Err? then Err(schedule.error)
    else
      var onCalls := api.listOnCalls(OnCallQuery(Some(schedule.value.id), since, until));
      if onCalls.Err? then Err(onCalls.error)
      else Ok(TextMsg(OnCallText(OnCallUsers(onCalls.value, api.getUser), userByEmail)))
  }

  /**
   * The command answers only after finding the schedule by name and listing
   * today's on-call entries of that schedule alone; either failure is its error.
   */
  lemma OnCallReplyCases(api: PagerdutyApi, userByEmail: string -> Result<SlackUser>, since: string, until: string)
    ensures var schedule := ScheduleNamed(api.listSchedules(ListSchedulesOptions(100, ScheduleName)), ScheduleName);
      var r := OnCallReply(api, userByEmail, since, until);
      && (schedule.Err? ==> r == Err(schedule.error))
      && (schedule.Ok? ==>
           var query := OnCallQuery(Some(schedule.value.id), since, until);
           && query.scheduleIds == [schedule.value.id]
           && (api.listOnCalls(query).Err? ==> r == Err(api.listOnCalls(query).error))
           && (api.listOnCalls(query).Ok? ==>
                r == Ok(TextMsg(OnCallText(OnCallUsers(api.listOnCalls(query).value, api.getUser), userByEmail)))))
  {
  }

  /** `pagerdutyListOnCall`: the command and the clients it asks. */
  class PagerdutyListOnCall {
    const pd: PagerdutyClient
    const slack: Workspace

    constructor (pd: PagerdutyClient, slack: Workspace)
      ensures this.pd == pd && this.slack == slack
    {
      this.pd := pd;
      this.slack := slack;
    }

    /** `Run`: today's on-call users, as Slack mentions. */
    method Run(msg: Msg, since: string, until: string) returns (r: Result<Msg>)
      ensures r == OnCallReply(pd.api, slack.userByEmail, since, until)
    {
      var schedule := pd.GetSchedule(ScheduleName);
      if schedule.Err? {
        return Err(schedule.error);
      }
      var onCallUserList := pd.ListTodaysOnCallUsers(Some(schedule.value.id), since, until);
      if onCallUserList.Err? {
        return Err(onCallUserList.error);
      }
      var onCall := onCallUserList.value;
      if |onCall| == 0 {
        return Ok(TextMsg(NobodyOnCall));
      }
      var users := MentionUsers(onCall);
      return Ok(TextMsg("Currently on call: " + Join(users, ", ")));
    }

    /** The loop of `Run`: a mention for each on-call user Slack finds by address. */
    method MentionUsers(onCall: seq<User>) returns (users: seq<string>)
      ensures users == Mentions(onCall, slack.userByEmail)
    {
      users := [];
      for i := 0 to |onCall|
        invariant users == Mentions(onCall[..i], slack.userByEmail)
      {
        assert onCall[..i + 1][..i] == onCall[..i];
        var usr := slack.GetUserByEmail(onCall[i].email);
        if usr.Ok? {
          users := users + [MentionOf(usr.value.id)];
        }
      }
      assert onCall[..|onCall|] == onCall;
    }
  }
}
