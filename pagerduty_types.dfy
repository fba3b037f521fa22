/**
 * The PagerDuty records the core reads and writes: the fields of the
 * go-pagerduty types that `pkg/clients/pagerduty.go`, `pkg/clients/filter.go`
 * and `pkg/api/incident_syncer.go` touch, and nothing else.
 */
module PagerdutyTypes {

  /** A reference to a PagerDuty object (`pagerduty.APIObject`). */
  datatype APIObject = APIObject(id: string, kind: string, summary: string, self: string, htmlUrl: string)

  /** A PagerDuty user. */
  datatype User = User(id: string, summary: string, self: string, htmlUrl: string, email: string, name: string)

  datatype Acknowledgement = Acknowledgement(at: string, acknowledger: APIObject)

  datatype Assignment = Assignment(at: string, assignee: APIObject)

  /**
   * An incident: `id`, `summary` and `htmlUrl` come from its embedded API object,
   * `createdAt` is the RFC 3339 text the API sends.
   */
  datatype Incident = Incident(
    id: string,
    summary: string,
    htmlUrl: string,
    incidentNumber: nat,
    createdAt: string,
    status: string,
    acknowledgements: seq<Acknowledgement>,
    assignments: seq<Assignment>)

  /** An on-call entry names its user by reference only. */
  datatype OnCall = OnCall(user: APIObject)

  datatype Schedule = Schedule(id: string, name: string)

  datatype IncidentNote = IncidentNote(createdAt: string, user: APIObject, content: string)

  /** An incident with nothing but a summary, as the tests build them. */
  function SummaryOnly(summary: string): Incident {
    Incident("", summary, "", 0, "", "", [], [])
  }
}
