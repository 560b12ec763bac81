/**
 * The project controller servlet: `doGet` and `doPost` pick a handler by the
 * `action` parameter, and each handler turns the request and the service's
 * answers into request attributes, a forward to a view, and service calls.
 */
module ProjectServlet {
  import opened Wrappers
  import opened Decimal
  import opened InsertionOrderSet
  import opened Exchange

  // Request parameters
  const ActionParam := "action"
  const ProjIdParam := "proj_id"
  const EmpIdParam := "emp_id"
  const NameParam := "name"
  const ManagerParam := "manager"
  const ClientParam := "client"
  const DeadlineParam := "deadline"
  const EmployeesParam := "employees"

  // Request attributes
  const AllProjectsList := "allProjectsList"
  const ProjectDetails := "projectDetails"
  const DeletedProjects := "deletedProjects"
  const AssignableEmployees := "assignableEmployees"
  const ProjectId := "projectID"
  const Operation := "operation"
  const SuccessMessage := "successMessage"
  const ErrorMessage := "errorMessage"
  const ErrorMsg := "errorMsg"
  const SingleProject := "singleProject"

  // Views
  const ProjectView := "/Project.jsp"
  const ProjectFormView := "/ProjectForm.jsp"
  const DeletedProjectsView := "/DeletedProjects.jsp"
  const AssignEmployeesView := "/AssignEmployees.jsp"
  const SuccessView := "/SuccessDisplay.jsp"
  const ErrorView := "/ErrorDisplay.jsp"
  const SingleProjectView := "/SingleProject.jsp"
  const IndexView := "/index.jsp"

  const InvalidAction := "Warning: Invalid action"

  // The prefixes put before the failure message when the deadline text
  // does not parse; the two handlers word them differently.
  const UpdateDeadlineWarning := "Invalid date input for deadline. "
  const AddDeadlineWarning := "Invalid input date for deadline. "

  /** An exception escaping before any attribute is set, after the service calls in `calls`. */
  function Uncaught(fault: Fault, calls: seq<ServiceCall>): Response {
    Response(map[], Throw(fault), calls)
  }

  /** The outcome of a write handler: `success` picks the attribute name and the view together. */
  predicate Reports(r: Response, success: bool, message: string) {
    if success then r.attributes == map[SuccessMessage := Text(message)] && r.ending == Forward(SuccessView)
    else r.attributes == map[ErrorMessage := Text(message)] && r.ending == Forward(ErrorView)
  }

  /** The closing lines each write handler repeats: attribute name and destination from one flag. */
  function Report(success: bool, message: string, calls: seq<ServiceCall>): (r: Response)
    ensures Reports(r, success, message) && r.calls == calls
  {
    var attributeName := if success then SuccessMessage else ErrorMessage;
    var destination := if success then SuccessView else ErrorView;
    Response(map[attributeName := Text(message)], Forward(destination), calls)
  }

  /** `fetchAllProjects`: every project group, shown by the project list view. */
  function FetchAllProjectsHandler(svc: Service): (r: Response)
    ensures r.calls == [FetchAllProjects] && r.ending == Forward(ProjectView)
    ensures r.attributes == map[AllProjectsList := RowGroups(svc.fetchAllProjects)]
  {
    Response(map[AllProjectsList := RowGroups(svc.fetchAllProjects)], Forward(ProjectView), [FetchAllProjects])
  }

  /** `getProjectForEdit`: the rows of one project, shown by the project form. */
  function GetProjectForEdit(req: Request, svc: Service, parseInt: string -> Option<int>): (r: Response)
    ensures var id := ParseId(Parameter(req, ProjIdParam), parseInt);
            (id.None? ==> r == Uncaught(NumberFormat, []))
            && (id.Some? ==>
                  r.calls == [SearchIndividualProject(id.value)]
                  && r.attributes == map[ProjectDetails := Rows(svc.searchIndividualProject(id.value))]
                  && r.ending == Forward(ProjectFormView))
  {
    match ParseId(Parameter(req, ProjIdParam), parseInt)
    case None => Uncaught(NumberFormat, [])
    case Some(projectId) =>
      var details := svc.searchIndividualProject(projectId);
      Response(map[ProjectDetails := Rows(details)], Forward(ProjectFormView), [SearchIndividualProject(projectId)])
  }

  /**
   * `updateProjectDetails`: the update is sent to the service only when the
   * deadline text parses as a date; otherwise the message is prefixed by the
   * validation failure and the outcome is a failure.
   */
  function UpdateProjectDetailsHandler(req: Request, svc: Service, parseInt: string -> Option<int>): (r: Response)
    ensures var id := ParseId(Parameter(req, ProjIdParam), parseInt);
            var text := Parameter(req, DeadlineParam);
            var deadline := svc.getDeadline(text);
            (id.None? ==> r == Uncaught(NumberFormat, []))
            && (id.Some? && deadline.None? ==>
                  r.calls == [GetDeadline(text)]
                  && Reports(r, false, UpdateDeadlineWarning + "Project update unsuccessful."))
            && (id.Some? && deadline.Some? ==>
                  var call := UpdateProjectDetails(id.value, Parameter(req, NameParam), Parameter(req, ManagerParam),
                                                   Parameter(req, ClientParam), deadline.value);
                  var success := svc.updateProjectDetails(call.projectId, call.name, call.manager, call.client, call.deadline);
                  r.calls == [GetDeadline(text), call]
                  && Reports(r, success, if success then "Project update successful." else "Project update unsuccessful."))
  {
    match ParseId(Parameter(req, ProjIdParam), parseInt)
    case None => Uncaught(NumberFormat, [])
    case Some(projectId) =>
      var name, manager, client := Parameter(req, NameParam), Parameter(req, ManagerParam), Parameter(req, ClientParam);
      var deadlineText := Parameter(req, DeadlineParam);
      var lookup := [GetDeadline(deadlineText)];
      match svc.getDeadline(deadlineText)
      case None =>
        Report(false, UpdateDeadlineWarning + "Project update unsuccessful.", lookup)
      case Some(deadline) =>
        var success := svc.updateProjectDetails(projectId, name, manager, client, deadline);
        var message := "" + (if success then "Project update successful." else "Project update unsuccessful.");
        assert message == if success then "Project update successful." else "Project update unsuccessful.";
        Report(success, message, lookup + [UpdateProjectDetails(projectId, name, manager, client, deadline)])
  }

  /** `createNewProject`: an empty project form in creation mode. */
  function CreateNewProject(): (r: Response)
    ensures r.calls == [] && r.ending == Forward(ProjectFormView)
    ensures r.attributes == map[Operation := Text("createProject")]
  {
    Response(map[Operation := Text("createProject")], Forward(ProjectFormView), [])
  }

  /**
   * `addNewProject`: the project is sent to the service only when the
   * deadline text parses as a date. The validation wording differs from the
   * update handler's.
   */
  function AddNewProject(req: Request, svc: Service): (r: Response)
    ensures var text := Parameter(req, DeadlineParam);
            var deadline := svc.getDeadline(text);
            (deadline.None? ==>
               r.calls == [GetDeadline(text)]
               && Reports(r, false, AddDeadlineWarning + "Project creation unsuccessful."))
            && (deadline.Some? ==>
                  var call := AddProject(Parameter(req, NameParam), Parameter(req, ManagerParam),
                                         Parameter(req, ClientParam), deadline.value);
                  var success := svc.addProject(call.name, call.manager, call.client, call.deadline);
                  r.calls == [GetDeadline(text), call]
                  && Reports(r, success, if success then "Project creation successful." else "Project creation unsuccessful."))
  {
    var name, manager, client := Parameter(req, NameParam), Parameter(req, ManagerParam), Parameter(req, ClientParam);
    var deadlineText := Parameter(req, DeadlineParam);
    var lookup := [GetDeadline(deadlineText)];
    match svc.getDeadline(deadlineText)
    case None =>
      Report(false, AddDeadlineWarning + "Project creation unsuccessful.", lookup)
    case Some(deadline) =>
      var success := svc.addProject(name, manager, client, deadline);
      var message := "" + (if success then "Project creation successful." else "Project creation unsuccessful.");
      assert message == if success then "Project creation successful." else "Project creation unsuccessful.";
      Report(success, message, lookup + [AddProject(name, manager, client, deadline)])
  }

  /** `deleteProject`: soft-deletes one project. */
  function DeleteProjectHandler(req: Request, svc: Service, parseInt: string -> Option<int>): (r: Response)
    ensures var id := ParseId(Parameter(req, ProjIdParam), parseInt);
            (id.None? ==> r == Uncaught(NumberFormat, []))
            && (id.Some? ==>
                  var success := svc.deleteProject(id.value);
                  r.calls == [DeleteProject(id.value)]
                  && Reports(r, success, if success then "Project deletion successful." else "Project deletion unsuccessful."))
  {
    match ParseId(Parameter(req, ProjIdParam), parseInt)
    case None => Uncaught(NumberFormat, [])
    case Some(projectId) =>
      var success := svc.deleteProject(projectId);
      Report(success, if success then "Project deletion successful." else "Project deletion unsuccessful.",
             [DeleteProject(projectId)])
  }

  /** `getDeletedProjects`: every soft-deleted project group, for the restore view. */
  function GetDeletedProjectsHandler(svc: Service): (r: Response)
    ensures r.calls == [GetDeletedProjects] && r.ending == Forward(DeletedProjectsView)
    ensures r.attributes == map[DeletedProjects := RowGroups(svc.getDeletedProjects)]
  {
    Response(map[DeletedProjects := RowGroups(svc.getDeletedProjects)], Forward(DeletedProjectsView), [GetDeletedProjects])
  }

  /** `restoreProject`: undoes a soft deletion. */
  function RestoreProjectHandler(req: Request, svc: Service, parseInt: string -> Option<int>): (r: Response)
    ensures var id := ParseId(Parameter(req, ProjIdParam), parseInt);
            (id.None? ==> r == Uncaught(NumberFormat, []))
            && (id.Some? ==>
                  var success := svc.restoreProject(id.value);
                  r.calls == [RestoreProject(id.value)]
                  && Reports(r, success, if success then "Project restoration successful." else "Project restoration unsuccessful."))
  {
    match ParseId(Parameter(req, ProjIdParam), parseInt)
    case None => Uncaught(NumberFormat, [])
    case Some(projectId) =>
      var success := svc.restoreProject(projectId);
      Report(success, if success then "Project restoration successful." else "Project restoration unsuccessful.",
             [RestoreProject(projectId)])
  }

  /** `unassignEmployee`: removes one employee from one project. */
  function UnassignEmployeeHandler(req: Request, svc: Service, parseInt: string -> Option<int>): (r: Response)
    ensures var id := ParseId(Parameter(req, ProjIdParam), parseInt);
            var employee := Parameter(req, EmpIdParam);
            (id.None? ==> r == Uncaught(NumberFormat, []))
            && (id.Some? ==>
                  var success := svc.unassignEmployee(employee, id.value);
                  r.calls == [UnassignEmployee(employee, id.value)]
                  && Reports(r, success, if success then "Employee unassign successful." else "Employee unassign unsuccessful."))
  {
    var employeeId := Parameter(req, EmpIdParam);
    match ParseId(Parameter(req, ProjIdParam), parseInt)
    case None => Uncaught(NumberFormat, [])
    case Some(projectId) =>
      var success := svc.unassignEmployee(employeeId, projectId);
      Report(success, if success then "Employee unassign successful." else "Employee unassign unsuccessful.",
             [UnassignEmployee(employeeId, projectId)])
  }

  /** `getAssignableEmployees`: the project id and its assignable employees, for the assignment form. */
  function GetAssignableEmployeesHandler(req: Request, svc: Service, parseInt: string -> Option<int>): (r: Response)
    ensures var id := ParseId(Parameter(req, ProjIdParam), parseInt);
            (id.None? ==> r == Uncaught(NumberFormat, []))
            && (id.Some? ==>
                  r.calls == [GetAssignableEmployees(id.value)]
                  && r.attributes == map[ProjectId := Number(id.value),
                                         AssignableEmployees := Rows(svc.getAssignableEmployees(id.value))]
                  && r.ending == Forward(AssignEmployeesView))
  {
    match ParseId(Parameter(req, ProjIdParam), parseInt)
    case None => Uncaught(NumberFormat, [])
    case Some(projectId) =>
      var employees := svc.getAssignableEmployees(projectId);
      Response(map[ProjectId := Number(projectId)][AssignableEmployees := Rows(employees)],
               Forward(AssignEmployeesView), [GetAssignableEmployees(projectId)])
  }

  /** The text `"" + succeeded + " out of " + requested + " employees successfully assigned."`. */
  function AssignmentMessage(succeeded: int, requested: int): string {
    IntToString(succeeded) + " out of " + IntToString(requested) + " employees successfully assigned."
  }

  /**
   * `assignEmployees`: the repeated `employees` values, without repeats and
   * in first-occurrence order, go to the service in one call; the service
   * answers with those it could not assign. The outcome is always reported
   * as a success, whatever the count.
   */
  function AssignEmployeesHandler(req: Request, svc: Service, parseInt: string -> Option<int>): (r: Response)
    ensures var id := ParseId(Parameter(req, ProjIdParam), parseInt);
            var values := ParameterValues(req, EmployeesParam);
            (id.None? ==> r == Uncaught(NumberFormat, []))
            && (id.Some? && values.None? ==> r == Uncaught(NullPointer, []))
            && (id.Some? && values.Some? ==>
                  var ids := Dedup(values.value);
                  var unassignable := svc.assignEmployee(id.value, ids);
                  r.calls == [AssignEmployee(id.value, ids)]
                  && r.attributes == map[SuccessMessage := Text(AssignmentMessage(|ids| - |unassignable|, |ids|))]
                  && r.ending == Forward(SuccessView))
  {
    var employeeIds := ParameterValues(req, EmployeesParam);
    match ParseId(Parameter(req, ProjIdParam), parseInt)
    case None => Uncaught(NumberFormat, [])
    case Some(projectId) =>
      match employeeIds
      case None => Uncaught(NullPointer, [])
      case Some(values) =>
        var assignableIds := Dedup(values);
        var unassignable := svc.assignEmployee(projectId, assignableIds);
        var message := AssignmentMessage(|assignableIds| - |unassignable|, |assignableIds|);
        Response(map[SuccessMessage := Text(message)], Forward(SuccessView), [AssignEmployee(projectId, assignableIds)])
  }

  /**
   * `fetchSingleProject`: a parse failure is caught and searches id 0. A
   * one-row answer whose first field is "NULL" means not found; a one-row
   * answer with any other first field chooses no view, and forwarding
   * through the null dispatcher throws.
   */
  function FetchSingleProject(req: Request, svc: Service, parseInt: string -> Option<int>): (r: Response)
    ensures var parsed := ParseId(Parameter(req, ProjIdParam), parseInt);
            var id := if parsed.Some? then parsed.value else 0;
            var rows := svc.searchIndividualProject(id);
            r.calls == [SearchIndividualProject(id)]
            && (|rows| != 1 ==>
                  r.attributes == map[SingleProject := Rows(rows)] && r.ending == Forward(SingleProjectView))
            && (|rows| == 1 && |rows[0]| == 0 ==>
                  r.attributes == map[] && r.ending == Throw(IndexOutOfBounds))
            && (|rows| == 1 && |rows[0]| > 0 && rows[0][0] == "NULL" ==>
                  r.attributes == map[ErrorMessage := Text(if parsed.None? then "Invalid input warning!!!" else "NO SUCH PROJECT FOUND")]
                  && r.ending == Forward(ErrorView))
            && (|rows| == 1 && |rows[0]| > 0 && rows[0][0] != "NULL" ==>
                  r.attributes == map[] && r.ending == Throw(NullPointer))
  {
    var parsed := ParseId(Parameter(req, ProjIdParam), parseInt);
    var invalidInput := parsed.None?;
    var projectId := if parsed.Some? then parsed.value else 0;
    var details := svc.searchIndividualProject(projectId);
    var calls := [SearchIndividualProject(projectId)];
    if |details| == 1 then
      var row := details[0];
      var message := if invalidInput then "Invalid input warning!!!" else "NO SUCH PROJECT FOUND";
      if |row| == 0 then Uncaught(IndexOutOfBounds, calls)
      else if row[0] == "NULL" then Response(map[ErrorMessage := Text(message)], Forward(ErrorView), calls)
      else Uncaught(NullPointer, calls)
    else
      Response(map[SingleProject := Rows(details)], Forward(SingleProjectView), calls)
  }

  /** The handlers the two switches can select. */
  datatype Handler =
    | FetchAll | FetchSingle | GetDeleted | GetAssignable
    | EditDetails | UpdateProject | CreateProject | AddNewProjectAction
    | Delete | Restore | Unassign | Assign

  /** Runs one handler. */
  function Run(h: Handler, req: Request, svc: Service, parseInt: string -> Option<int>): Response {
    match h
    case FetchAll => FetchAllProjectsHandler(svc)
    case FetchSingle => FetchSingleProject(req, svc, parseInt)
    case GetDeleted => GetDeletedProjectsHandler(svc)
    case GetAssignable => GetAssignableEmployeesHandler(req, svc, parseInt)
    case EditDetails => GetProjectForEdit(req, svc, parseInt)
    case UpdateProject => UpdateProjectDetailsHandler(req, svc, parseInt)
    case CreateProject => CreateNewProject()
    case AddNewProjectAction => AddNewProject(req, svc)
    case Delete => DeleteProjectHandler(req, svc, parseInt)
    case Restore => RestoreProjectHandler(req, svc, parseInt)
    case Unassign => UnassignEmployeeHandler(req, svc, parseInt)
    case Assign => AssignEmployeesHandler(req, svc, parseInt)
  }

  /** The `switch` in `doGet`. */
  function GetHandler(action: string): Option<Handler> {
    if action == "displayAll" then Some(FetchAll)
    else if action == "singleProject" then Some(FetchSingle)
    else if action == "getDeletedProjects" then Some(GetDeleted)
    else if action == "getAssignableEmployees" then Some(GetAssignable)
    else None
  }

  /** The `switch` in `doPost`. */
  function PostHandler(action: string): Option<Handler> {
    if action == "editDetails" then Some(EditDetails)
    else if action == "updateProject" then Some(UpdateProject)
    else if action == "createProject" then Some(CreateProject)
    else if action == "addNewProject" then Some(AddNewProjectAction)
    else if action == "deleteProject" then Some(Delete)
    else if action == "restoreProject" then Some(Restore)
    else if action == "unassignEmployee" then Some(Unassign)
    else if action == "assignEmployees" then Some(Assign)
    else None
  }

  /** What both methods do when the `action` parameter is missing. */
  function MissingAction(): Response {
    Response(map[ErrorMsg := Text(InvalidAction)], Forward(IndexView), [])
  }

  /** Dispatch through one switch: missing action, matched action, or a silent fall-through. */
  function Dispatch(route: string -> Option<Handler>, req: Request, svc: Service, parseInt: string -> Option<int>): Response {
    match Parameter(req, ActionParam)
    case None => MissingAction()
    case Some(action) =>
      match route(action)
      case Some(h) => Run(h, req, svc, parseInt)
      case None => Response(map[], NoForward, [])
  }

  function DoGet(req: Request, svc: Service, parseInt: string -> Option<int>): (r: Response)
    ensures Parameter(req, ActionParam).None? ==>
              r.attributes == map[ErrorMsg := Text("Warning: Invalid action")] && r.ending == Forward(IndexView) && r.calls == []
    ensures Parameter(req, ActionParam).Some? && GetHandler(Parameter(req, ActionParam).value).None? ==>
              r == Response(map[], NoForward, [])
    ensures Parameter(req, ActionParam).Some? && GetHandler(Parameter(req, ActionParam).value).Some? ==>
              r == Run(GetHandler(Parameter(req, ActionParam).value).value, req, svc, parseInt)
  {
    Dispatch(GetHandler, req, svc, parseInt)
  }

  function DoPost(req: Request, svc: Service, parseInt: string -> Option<int>): (r: Response)
    ensures Parameter(req, ActionParam).None? ==>
              r.attributes == map[ErrorMsg := Text("Warning: Invalid action")] && r.ending == Forward(IndexView) && r.calls == []
    ensures Parameter(req, ActionParam).Some? && PostHandler(Parameter(req, ActionParam).value).None? ==>
              r == Response(map[], NoForward, [])
    ensures Parameter(req, ActionParam).Some? && PostHandler(Parameter(req, ActionParam).value).Some? ==>
              r == Run(PostHandler(Parameter(req, ActionParam).value).value, req, svc, parseInt)
  {
    Dispatch(PostHandler, req, svc, parseInt)
  }
}
