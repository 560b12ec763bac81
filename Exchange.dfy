/**
 * What one request to the project controller sees and leaves behind.
 *
 * The servlet container's request is reduced to its parameters, the project
 * service to the answers it gives (as functions of the arguments it is
 * called with), and the outcome to the attributes set on the request, how
 * the handling ended, and the service calls made in order.
 */
module Exchange {
  import opened Wrappers

  /** One `String[]` row of a service result. */
  type Row = seq<string>

  /** A `java.sql.Date` produced by the service's deadline parsing. */
  datatype Date = Date(year: int, month: int, day: int)

  /** The values the controller stores as request attributes. */
  datatype Value =
    | Text(text: string)                 // a String
    | Number(number: int)                // an Integer
    | Rows(rows: seq<Row>)               // a List<String[]>
    | RowGroups(groups: seq<seq<Row>>)   // a List<List<String[]>>

  /** Form parameters: every name with its values in order (`getParameterValues`). */
  datatype Request = Request(parameters: map<string, seq<string>>)

  /** `getParameter`: the first value of the parameter, or null. */
  function Parameter(req: Request, name: string): (v: Option<string>)
    ensures v.Some? <==> name in req.parameters && |req.parameters[name]| > 0
    ensures v.Some? ==> v.value == req.parameters[name][0]
  {
    if name in req.parameters && |req.parameters[name]| > 0 then Some(req.parameters[name][0]) else None
  }

  /** `getParameterValues`: all values of the parameter, or null when it is absent. */
  function ParameterValues(req: Request, name: string): (vs: Option<seq<string>>)
    ensures vs.Some? <==> Parameter(req, name).Some?
    ensures vs.Some? ==> |vs.value| > 0 && vs.value[0] == Parameter(req, name).value
  {
    if name in req.parameters && |req.parameters[name]| > 0 then Some(req.parameters[name]) else None
  }

  /** `Integer.parseInt` on a possibly missing parameter; a missing one is a parse failure. */
  function ParseId(text: Option<string>, parseInt: string -> Option<int>): (id: Option<int>)
    ensures text.None? ==> id.None?
    ensures text.Some? ==> id == parseInt(text.value)
  {
    match text
    case None => None
    case Some(t) => parseInt(t)
  }

  /** The calls the controller makes into the project service, with their arguments. */
  datatype ServiceCall =
    | FetchAllProjects
    | SearchIndividualProject(projectId: int)
    | GetDeadline(deadlineText: Option<string>)
    | UpdateProjectDetails(projectId: int, name: Option<string>, manager: Option<string>,
                           client: Option<string>, deadline: Date)
    | AddProject(name: Option<string>, manager: Option<string>, client: Option<string>, deadline: Date)
    | DeleteProject(projectId: int)
    | GetDeletedProjects
    | RestoreProject(projectId: int)
    | UnassignEmployee(employeeId: Option<string>, projectId: int)
    | GetAssignableEmployees(projectId: int)
    | AssignEmployee(projectId: int, employeeIds: seq<string>)
  {
    /** The calls that change persisted data. */
    predicate IsMutation() {
      UpdateProjectDetails? || AddProject? || DeleteProject? || RestoreProject?
      || UnassignEmployee? || AssignEmployee?
    }
  }

  predicate MutationInvoked(calls: seq<ServiceCall>) {
    exists i :: 0 <= i < |calls| && calls[i].IsMutation()
  }

  /** The answers the project service gives, as functions of the call's arguments. */
  datatype Service = Service(
    fetchAllProjects: seq<seq<Row>>,
    searchIndividualProject: int -> seq<Row>,
    getDeadline: Option<string> -> Option<Date>,
    updateProjectDetails: (int, Option<string>, Option<string>, Option<string>, Date) -> bool,
    addProject: (Option<string>, Option<string>, Option<string>, Date) -> bool,
    deleteProject: int -> bool,
    getDeletedProjects: seq<seq<Row>>,
    restoreProject: int -> bool,
    unassignEmployee: (Option<string>, int) -> bool,
    getAssignableEmployees: int -> seq<Row>,
    assignEmployee: (int, seq<string>) -> seq<string>)

  /** Exceptions that escape a handler uncaught. */
  datatype Fault =
    | NumberFormat          // Integer.parseInt on a missing or non-numeric parameter
    | NullPointer           // forward on a null dispatcher, or a loop over a null array
    | IndexOutOfBounds      // element 0 of an empty row

  /** How handling a request ends. */
  datatype Ending =
    | Forward(view: string)   // the request is forwarded to this view
    | NoForward               // the controller sets nothing and forwards nothing; the container sends an empty response
    | Throw(fault: Fault)     // an exception escapes

  /** The attributes set on the request, the ending, and the service calls made in order. */
  datatype Response = Response(attributes: map<string, Value>, ending: Ending, calls: seq<ServiceCall>)
}
