/**
 * The PagerDuty client of `pkg/clients/pagerduty.go` and its helper `containsUser`
 * of `pkg/clients/util.go`.
 *
 * The PagerDuty REST API is the object `PagerdutyApi`: every read is a fixed
 * function of its request (an oracle the client cannot see into), and every write
 * is appended to a log whose n-th entry succeeds or fails as the oracle
 * `writeOutcome(n)` says. The clock is a parameter (`now`, `since`, `until`).
 */
module Pagerduty {
  import opened Wrappers
  import opened Strings
  import Slice
  import opened Correlator
  import opened PagerdutyTypes
  import opened Filters

  const StatusAcknowledged := "acknowledged"
  const StatusTriggered := "triggered"
  const TypeUserReference := "user_reference"

  datatype ListIncidentsOptions = ListIncidentsOptions(statuses: seq<string>, limit: nat)

  datatype ListOnCallOptions = ListOnCallOptions(
    limit: nat, earliest: bool, since: string, until: string,
    includes: seq<string>, scheduleIds: seq<string>)

  datatype ListSchedulesOptions = ListSchedulesOptions(limit: nat, query: string)

  /** A request that changes something on the PagerDuty side. */
  datatype Write =
    | ManageIncidents(fromEmail: string, incidents: seq<Incident>)
    | CreateIncidentNote(incidentId: string, fromEmail: string, note: IncidentNote)

  /** The PagerDuty API as the client sees it. */
  class PagerdutyApi {
    const listUsers: string -> Result<seq<User>>
    const listIncidents: ListIncidentsOptions -> Result<seq<Incident>>
    const getIncident: string -> Result<Incident>
    const getUser: string -> Result<User>
    const listOnCalls: ListOnCallOptions -> Result<seq<OnCall>>
    const listSchedules: ListSchedulesOptions -> Result<seq<Schedule>>
    /** The error, if any, that the write at this position of the log returns. */
    const writeOutcome: nat -> Option<string>
    var writes: seq<Write>

    constructor (
      listUsers: string -> Result<seq<User>>,
      listIncidents: ListIncidentsOptions -> Result<seq<Incident>>,
      getIncident: string -> Result<Incident>,
      getUser: string -> Result<User>,
      listOnCalls: ListOnCallOptions -> Result<seq<OnCall>>,
      listSchedules: ListSchedulesOptions -> Result<seq<Schedule>>,
      writeOutcome: nat -> Option<string>)
      ensures this.listUsers == listUsers && this.listIncidents == listIncidents
      ensures this.getIncident == getIncident && this.getUser == getUser
      ensures this.listOnCalls == listOnCalls && this.listSchedules == listSchedules
      ensures this.writeOutcome == writeOutcome && writes == []
    {
      this.listUsers := listUsers;
      this.listIncidents := listIncidents;
      this.getIncident := getIncident;
      this.getUser := getUser;
      this.listOnCalls := listOnCalls;
      this.listSchedules := listSchedules;
      this.writeOutcome := writeOutcome;
      writes := [];
    }

    method Manage(fromEmail: string, incidents: seq<Incident>) returns (err: Option<string>)
      modifies this
      ensures writes == old(writes) + [ManageIncidents(fromEmail, incidents)]
      ensures err == writeOutcome(|old(writes)|)
    {
      err := writeOutcome(|writes|);
      writes := writes + [ManageIncidents(fromEmail, incidents)];
    }

    method CreateNote(incidentId: string, fromEmail: string, note: IncidentNote) returns (err: Option<string>)
      modifies this
      ensures writes == old(writes) + [CreateIncidentNote(incidentId, fromEmail, note)]
      ensures err == writeOutcome(|old(writes)|)
    {
      err := writeOutcome(|writes|);
      writes := writes + [CreateIncidentNote(incidentId, fromEmail, note)];
    }
  }

  /** Some user of the list carries the ID of `user`. */
  predicate HasUserId(userList: seq<User>, user: APIObject) {
    exists i :: 0 <= i < |userList| && userList[i].id == user.id
  }

  /** `containsUser`: a scan for a user with the same ID. */
  method ContainsUser(userList: seq<User>, user: APIObject) returns (found: bool)
    ensures found <==> HasUserId(userList, user)
  {
    for i := 0 to |userList|
      invariant forall k :: 0 <= k < i ==> userList[k].id != user.id
    {
      if userList[i].id == user.id {
        return true;
      }
    }
    return false;
  }

  /** The first user whose e-mail address is exactly `email`. */
  function FirstWithEmail(users: seq<User>, email: string): (r: Option<User>)
    ensures r.Some? <==> exists i :: 0 <= i < |users| && users[i].email == email
  {
    if users == [] then None
    else if users[0].email == email then Some(users[0])
    else
      var r := FirstWithEmail(users[1..], email);
      assert forall i :: 1 <= i < |users| ==> users[i] == users[1..][i - 1];
      r
  }

  /** A found user is the first of the list with that address. */
  lemma {:induction false} FirstWithEmailIsFirst(users: seq<User>, email: string)
    requires FirstWithEmail(users, email).Some?
    ensures exists i :: (0 <= i < |users| && users[i] == FirstWithEmail(users, email).value
      && users[i].email == email && forall k :: 0 <= k < i ==> users[k].email != email)
  {
    if users[0].email != email {
      FirstWithEmailIsFirst(users[1..], email);
      var i :| (0 <= i < |users[1..]| && users[1..][i] == FirstWithEmail(users[1..], email).value
        && users[1..][i].email == email && forall k :: 0 <= k < i ==> users[1..][k].email != email);
      assert users[i + 1] == users[1..][i];
      forall k | 0 <= k < i + 1 ensures users[k].email != email {
        if k > 0 {
          assert users[k] == users[1..][k - 1];
        }
      }
    }
  }

  /** What `GetUserByEmail` answers for the users the query returned. */
  function UserByEmail(listed: Result<seq<User>>, email: string): Result<User> {
    if listed.Err? then Err(listed.error)
    else
      var u := FirstWithEmail(listed.value, email);
      if u.Some? then Ok(u.value) else Err("user with email '" + email + "' not found")
  }

  /** The request of `ListIncidents`: triggered incidents, a page of 100. */
  const TriggeredPage := ListIncidentsOptions([StatusTriggered], 100)

  /** The incidents `ListIncidents` returns for a listing and an optional filter. */
  function ListedIncidents(listed: Result<seq<Incident>>, clusters: Option<seq<string>>, alertname: string, filtered: bool): Result<seq<Incident>> {
    if listed.Err? then Err(listed.error)
    else if !filtered then Ok(listed.value)
    else Ok(Kept(clusters, alertname, listed.value))
  }

  /** The reference to a user that acknowledgements, assignments and notes carry. */
  function UserReference(user: User): (r: APIObject)
    ensures r.id == user.id && r.kind == TypeUserReference
  {
    APIObject(user.id, TypeUserReference, user.summary, user.self, user.htmlUrl)
  }

  /** The incident record `AcknowledgeIncident` sends: acknowledged by and assigned to `user` at `now`. */
  function Acknowledged(incident: Incident, user: User, now: string): (r: Incident)
    ensures r.status == StatusAcknowledged
    ensures |r.acknowledgements| == |incident.acknowledgements| + 1
    ensures r.acknowledgements[..|incident.acknowledgements|] == incident.acknowledgements
    ensures r.acknowledgements[|incident.acknowledgements|].acknowledger.id == user.id
    ensures r.acknowledgements[|incident.acknowledgements|].at == now
    ensures |r.assignments| == |incident.assignments| + 1
    ensures r.assignments[..|incident.assignments|] == incident.assignments
    ensures r.assignments[|incident.assignments|].assignee.id == user.id
    ensures r.assignments[|incident.assignments|].at == now
    ensures r.(status := incident.status, acknowledgements := incident.acknowledgements,
               assignments := incident.assignments) == incident
  {
    var ref := UserReference(user);
    incident.(
      status := StatusAcknowledged,
      acknowledgements := incident.acknowledgements + [Acknowledgement(now, ref)],
      assignments := incident.assignments + [Assignment(now, ref)])
  }

  /** The text of the acknowledger note. */
  function AcknowledgerNoteContent(actualAcknowledger: string, now: string): (r: string)
    ensures OccursAt(r, actualAcknowledger, 39)
  {
    var r := "Incident was acknowledged on behalf of " + actualAcknowledger + ". time: " + now;
    assert r[39..39 + |actualAcknowledger|] == actualAcknowledger;
    r
  }

  /**
   * The users `ListTodaysOnCallUsers` collects: each on-call entry whose user ID is
   * not yet in the result is looked up, and added when the lookup succeeds.
   */
  function OnCallUsers(onCalls: seq<OnCall>, getUser: string -> Result<User>): (r: seq<User>)
    ensures |r| <= |onCalls|
  {
    if onCalls == [] then []
    else
      var res := OnCallUsers(onCalls[..|onCalls| - 1], getUser);
      var oc := onCalls[|onCalls| - 1];
      if HasUserId(res, oc.user) then res
      else
        var u := getUser(oc.user.id);
        if u.Err? then res else res + [u.value]
  }

  /** The IDs of a list of users. */
  function Ids(users: seq<User>): (r: seq<string>)
    ensures |r| == |users| && forall i :: 0 <= i < |users| ==> r[i] == users[i].id
  {
    if users == [] then [] else Ids(users[..|users| - 1]) + [users[|users| - 1].id]
  }

  /** The user IDs of the on-call entries whose lookup succeeds, in order, repeats kept. */
  function FoundIds(onCalls: seq<OnCall>, getUser: string -> Result<User>): seq<string> {
    if onCalls == [] then []
    else
      var id := onCalls[|onCalls| - 1].user.id;
      FoundIds(onCalls[..|onCalls| - 1], getUser) + (if getUser(id).Ok? then [id] else [])
  }

  /** The lookup returns the user that was asked for. */
  ghost predicate HonestLookup(getUser: string -> Result<User>) {
    forall id :: getUser(id).Ok? ==> getUser(id).value.id == id
  }

  /**
   * With an honest lookup, the IDs of the collected users are the IDs whose lookup
   * succeeds, each once, in the order they are first met.
   */
  lemma {:induction false} OnCallUsersDedup(onCalls: seq<OnCall>, getUser: string -> Result<User>)
    requires HonestLookup(getUser)
    ensures Ids(OnCallUsers(onCalls, getUser)) == Slice.Dedup(FoundIds(onCalls, getUser))
  {
    if onCalls != [] {
      var p := onCalls[..|onCalls| - 1];
      var oc := onCalls[|onCalls| - 1];
      var id := oc.user.id;
      var res := OnCallUsers(p, getUser);
      var f := FoundIds(p, getUser);
      var fs := FoundIds(onCalls, getUser);
      assert Ids(res) == Slice.Dedup(f) by {
        OnCallUsersDedup(p, getUser);
      }
      assert HasUserId(res, oc.user) <==> id in f by {
        HasUserIdIds(res, oc.user);
        Slice.DedupDistinctSameElements(f);
      }
      if getUser(id).Err? {
        assert fs == f;
      } else {
        assert fs[..|fs| - 1] == f && fs[|fs| - 1] == id by {
          assert fs == f + [id];
        }
        if id !in f {
          assert Ids(res + [getUser(id).value]) == Ids(res) + [id] by {
            var u := res + [getUser(id).value];
            assert u[..|u| - 1] == res;
          }
        }
      }
    }
  }

  /** A user with the ID is in the list exactly when the ID is among the list's IDs. */
  lemma HasUserIdIds(res: seq<User>, user: APIObject)
    ensures HasUserId(res, user) <==> user.id in Ids(res)
  {
    if HasUserId(res, user) {
      var i :| 0 <= i < |res| && res[i].id == user.id;
      assert Ids(res)[i] == user.id;
    }
    if user.id in Ids(res) {
      var i :| 0 <= i < |Ids(res)| && Ids(res)[i] == user.id;
      assert res[i].id == user.id;
    }
  }

  /** With an honest lookup, no two collected users share an ID, and every ID found is collected. */
  lemma OnCallUsersDistinct(onCalls: seq<OnCall>, getUser: string -> Result<User>)
    requires HonestLookup(getUser)
    ensures Slice.Distinct(Ids(OnCallUsers(onCalls, getUser)))
    ensures forall id :: id in Ids(OnCallUsers(onCalls, getUser)) <==> id in FoundIds(onCalls, getUser)
  {
    OnCallUsersDedup(onCalls, getUser);
    Slice.DedupDistinctSameElements(FoundIds(onCalls, getUser));
  }

  /** Every collected user is the answer of a successful lookup of some on-call entry's ID. */
  lemma {:induction false} OnCallUsersLookedUp(onCalls: seq<OnCall>, getUser: string -> Result<User>, u: User)
    requires u in OnCallUsers(onCalls, getUser)
    ensures exists i :: 0 <= i < |onCalls| && getUser(onCalls[i].user.id) == Ok(u)
  {
    var p := onCalls[..|onCalls| - 1];
    var res := OnCallUsers(p, getUser);
    if u in res {
      OnCallUsersLookedUp(p, getUser, u);
      var i :| 0 <= i < |p| && getUser(p[i].user.id) == Ok(u);
      assert onCalls[i] == p[i];
    }
  }

  /** `xs[i]` satisfies `p` and no element before it does. */
  predicate FirstAt<T>(xs: seq<T>, p: T -> bool, i: nat) {
    i < |xs| && p(xs[i]) && forall j :: 0 <= j < i ==> !p(xs[j])
  }

  /** The first element that satisfies `p`. */
  function FirstWhere<T>(xs: seq<T>, p: T -> bool): (r: Option<T>)
    ensures r.Some? ==> r.value in xs && p(r.value)
    ensures r.Some? ==> exists i: nat :: FirstAt(xs, p, i) && xs[i] == r.value
  {
    if xs == [] then None
    else if p(xs[0]) then
      assert FirstAt(xs, p, 0);
      Some(xs[0])
    else
      var r := FirstWhere(xs[1..], p);
      assert r.Some? ==> exists i: nat :: FirstAt(xs, p, i) && xs[i] == r.value by {
        if r.Some? {
          var i: nat :| FirstAt(xs[1..], p, i) && xs[1..][i] == r.value;
          assert FirstAt(xs, p, i + 1) by {
            assert forall j :: 1 <= j <= i ==> xs[j] == xs[1..][j - 1];
          }
        }
      }
      r
  }

  /** Nothing is found exactly when no element satisfies `p`. */
  lemma {:induction false} FirstWhereNone<T>(xs: seq<T>, p: T -> bool)
    ensures FirstWhere(xs, p).None? <==> forall i :: 0 <= i < |xs| ==> !p(xs[i])
  {
    if xs != [] {
      var rest := xs[1..];
      FirstWhereNone(rest, p);
      assert forall i :: 1 <= i < |xs| ==> xs[i] == rest[i - 1];
    }
  }

  /** The schedule's normalised name equals the normalised query. */
  function NameIs(name: string): Schedule -> bool {
    (s: Schedule) => NormalizeString(s.name) == NormalizeString(name)
  }

  /** `schedules[i]`'s normalised name equals the normalised query, and no earlier schedule's does. */
  predicate FirstNamed(schedules: seq<Schedule>, name: string, i: nat) {
    && i < |schedules|
    && NormalizeString(schedules[i].name) == NormalizeString(name)
    && forall j :: 0 <= j < i ==> NormalizeString(schedules[j].name) != NormalizeString(name)
  }

  /** The first schedule whose normalised name equals the normalised query. */
  function FirstScheduleNamed(schedules: seq<Schedule>, name: string): (r: Option<Schedule>)
    ensures r.Some? ==> r.value in schedules && NormalizeString(r.value.name) == NormalizeString(name)
    ensures r.Some? ==> exists i: nat :: FirstNamed(schedules, name, i) && schedules[i] == r.value
  {
    var r := FirstWhere(schedules, NameIs(name));
    assert r.Some? ==> exists i: nat :: FirstNamed(schedules, name, i) && schedules[i] == r.value
    by {
      if r.Some? {
        var i: nat :| FirstAt(schedules, NameIs(name), i) && schedules[i] == r.value;
        assert FirstNamed(schedules, name, i) by {
          assert forall j :: 0 <= j < i ==> !NameIs(name)(schedules[j]);
        }
      }
    }
    r
  }

  /** No schedule is found exactly when no schedule's normalised name equals the normalised query. */
  lemma FirstScheduleNamedNone(schedules: seq<Schedule>, name: string)
    ensures FirstScheduleNamed(schedules, name).None? <==>
      forall i :: 0 <= i < |schedules| ==> NormalizeString(schedules[i].name) != NormalizeString(name)
  {
    FirstWhereNone(schedules, NameIs(name));
  }

  /** The answer of `GetSchedule` for the schedules the query returned. */
  function ScheduleNamed(listed: Result<seq<Schedule>>, name: string): Result<Schedule> {
    if listed.Err? then Err(listed.error)
    else
      var s := FirstScheduleNamed(listed.value, name);
      if s.Some? then Ok(s.value) else Err("schedule not found")
  }

  /** The on-call request for one day, narrowed to one schedule when its ID is given. */
  function OnCallQuery(scheduleId: Option<string>, since: string, until: string): (o: ListOnCallOptions)
    ensures o.limit == 100 && o.earliest && o.since == since && o.until == until
    ensures scheduleId.None? ==> o.includes == [] && o.scheduleIds == []
    ensures scheduleId.Some? ==> o.includes == ["schedules"] && o.scheduleIds == [scheduleId.value]
  {
    if scheduleId.Some? then ListOnCallOptions(100, true, since, until, ["schedules"], [scheduleId.value])
    else ListOnCallOptions(100, true, since, until, [], [])
  }

  /** `PagerdutyClient`: the API and the default user, which acts when no better user is known. */
  class PagerdutyClient {
    const api: PagerdutyApi
    var defaultUser: User

    /** A client whose default user is not looked up yet (an empty record). */
    constructor (api: PagerdutyApi)
      ensures this.api == api && defaultUser == User("", "", "", "", "", "")
    {
      this.api := api;
      defaultUser := User("", "", "", "", "", "");
    }

    /** `GetUserByEmail`: the first listed user with exactly this address. */
    method GetUserByEmail(email: string) returns (r: Result<User>)
      ensures r == UserByEmail(api.listUsers(email), email)
    {
      var listed := api.listUsers(email);
      if listed.Err? {
        return Err(listed.error);
      }
      var users := listed.value;
      for i := 0 to |users|
        invariant FirstWithEmail(users[i..], email) == FirstWithEmail(users, email)
      {
        assert users[i..][1..] == users[i + 1..];
        if users[i].email == email {
          return Ok(users[i]);
        }
      }
      assert users[|users|..] == [];
      return Err("user with email '" + email + "' not found");
    }

    /** `ListIncidents`: the triggered incidents, through the filter when one is given. */
    method ListIncidents(f: Filter?) returns (r: Result<seq<Incident>>)
      ensures f == null ==> r == ListedIncidents(api.listIncidents(TriggeredPage), None, "", false)
      ensures f != null ==> r == ListedIncidents(api.listIncidents(TriggeredPage), f.clusters, f.alertname, true)
    {
      var listed := api.listIncidents(TriggeredPage);
      if listed.Err? {
        return Err(listed.error);
      }
      if f == null {
        return Ok(listed.value);
      }
      var kept := f.FilterIncidents(listed.value);
      return Ok(kept);
    }

    /**
     * `AcknowledgeIncident`: fetches the incident and sends it back acknowledged by
     * and assigned to `user`, on behalf of the user's address.
     */
    method AcknowledgeIncident(incidentId: string, user: User, now: string) returns (err: Option<string>)
      modifies api
      ensures api.getIncident(incidentId).Err? ==>
        err == Some(api.getIncident(incidentId).error) && api.writes == old(api.writes)
      ensures api.getIncident(incidentId).Ok? ==>
        api.writes == old(api.writes) + [ManageIncidents(user.email, [Acknowledged(api.getIncident(incidentId).value, user, now)])]
        && err == api.writeOutcome(|old(api.writes)|)
    {
      var incident := api.getIncident(incidentId);
      if incident.Err? {
        return Some(incident.error);
      }
      err := api.Manage(user.email, [Acknowledged(incident.value, user, now)]);
    }

    /** `AddActualAcknowledgerAsNoteToIncident`: a note by the default user naming who acknowledged. */
    method AddActualAcknowledgerAsNote(incidentId: string, actualAcknowledger: string, now: string) returns (err: Option<string>)
      modifies api
      ensures api.writes == old(api.writes) + [CreateIncidentNote(incidentId, defaultUser.email,
        IncidentNote(now, UserReference(defaultUser), AcknowledgerNoteContent(actualAcknowledger, now)))]
      ensures err == api.writeOutcome(|old(api.writes)|)
    {
      var note := IncidentNote(now, UserReference(defaultUser), AcknowledgerNoteContent(actualAcknowledger, now));
      err := api.CreateNote(incidentId, defaultUser.email, note);
    }

    /** `ListTodaysOnCallUsers`: the day's on-call users, one per ID, skipping failed lookups. */
    method ListTodaysOnCallUsers(scheduleId: Option<string>, since: string, until: string) returns (r: Result<seq<User>>)
      ensures api.listOnCalls(OnCallQuery(scheduleId, since, until)).Err? ==>
        r == Err(api.listOnCalls(OnCallQuery(scheduleId, since, until)).error)
      ensures api.listOnCalls(OnCallQuery(scheduleId, since, until)).Ok? ==>
        r == Ok(OnCallUsers(api.listOnCalls(OnCallQuery(scheduleId, since, until)).value, api.getUser))
    {
      var listed := api.listOnCalls(OnCallQuery(scheduleId, since, until));
      if listed.Err? {
        return Err(listed.error);
      }
      var onCalls := listed.value;
      var res: seq<User> := [];
      for i := 0 to |onCalls|
        invariant res == OnCallUsers(onCalls[..i], api.getUser)
      {
        assert onCalls[..i + 1][..i] == onCalls[..i];
        var onCall := onCalls[i];
        var seen := ContainsUser(res, onCall.user);
        if !seen {
          var u := api.getUser(onCall.user.id);
          if u.Err? {
            continue;
          }
          res := res + [u.value];
        }
      }
      assert onCalls[..|onCalls|] == onCalls;
      return Ok(res);
    }

    /** `GetSchedule`: the first listed schedule whose name matches, ignoring case and outer white space. */
    method GetSchedule(scheduleName: string) returns (r: Result<Schedule>)
      ensures r == ScheduleNamed(api.listSchedules(ListSchedulesOptions(100, scheduleName)), scheduleName)
    {
      var listed := api.listSchedules(ListSchedulesOptions(100, scheduleName));
      if listed.Err? {
        return Err(listed.error);
      }
      var schedules := listed.value;
      for i := 0 to |schedules|
        invariant FirstScheduleNamed(schedules[i..], scheduleName) == FirstScheduleNamed(schedules, scheduleName)
      {
        assert schedules[i..][1..] == schedules[i + 1..];
        if NormalizeString(schedules[i].name) == NormalizeString(scheduleName) {
          return Ok(schedules[i]);
        }
      }
      assert schedules[|schedules|..] == [];
      return Err("schedule not found");
    }
  }

  /**
   * `NewPagerdutyClient`: a client whose default user is the one with the configured
   * address; fails, wrapping the lookup's error, when there is none.
   */
  method NewPagerdutyClient(api: PagerdutyApi, defaultEmail: string) returns (r: Result<PagerdutyClient>)
    ensures UserByEmail(api.listUsers(defaultEmail), defaultEmail).Err? ==>
      r == Err("error getting default pagerduty user with email " + defaultEmail + ": "
        + UserByEmail(api.listUsers(defaultEmail), defaultEmail).error)
    ensures UserByEmail(api.listUsers(defaultEmail), defaultEmail).Ok? ==>
      r.Ok? && fresh(r.value) && r.value.api == api
      && r.value.defaultUser == UserByEmail(api.listUsers(defaultEmail), defaultEmail).value
  {
    var c := new PagerdutyClient(api);
    var user := c.GetUserByEmail(defaultEmail);
    if user.Err? {
      return Err("error getting default pagerduty user with email " + defaultEmail + ": " + user.error);
    }
    c.defaultUser := user.value;
    return Ok(c);
  }

  /** The default user of a new client has the configured address. */
  lemma DefaultUserHasEmail(listed: Result<seq<User>>, email: string)
    requires UserByEmail(listed, email).Ok?
    ensures UserByEmail(listed, email).value.email == email
  {
    FirstWithEmailIsFirst(listed.value, email);
  }
}
