# ProjectServlet decision logic, modelled in Dafny

This project models the controller of a project-management web application. The controller is the servlet `ProjectServlet`. A request carries an `action` parameter. `doGet` and `doPost` each use a `switch` on that parameter to pick one handler. A handler typically reads form parameters, calls the project service, stores results or a message as request attributes and forwards the request to a JSP view. Some handlers read no parameter or call no service, and the exceptions to forwarding are listed below.

Each handler becomes a deterministic function of some of three inputs:

- the request's form parameters (`Exchange.Request`);
- the project service's answers (`Exchange.Service`), a record of pure functions from the call's arguments to its result;
- `Integer.parseInt`, an abstract `string -> Option<int>`, where `None` stands for `NumberFormatException`.

Each handler's output is an `Exchange.Response` with three parts:

- the attribute store the handler filled, a `map<string, Value>`;
- how the request ended: `Forward(view)`, `NoForward` when the controller sets nothing and forwards nothing (the container then sends an empty response), or `Throw(fault)` when an exception escapes;
- the trace of service calls made, with their arguments. "A service mutation was invoked" means a mutating call appears in this trace.

Files:

- `Wrappers.dfy`: `Option`, standing in for Java's nullable references.
- `Decimal.dfy`: Java's decimal text of an `int` (`"" + n`) and its inverse.
- `InsertionOrderSet.dfy`: the `LinkedHashSet` that `assignEmployees` fills.
  - The `Dedup` function gives the set's iteration order.
  - The `CollectIds` method is the loop that fills the set, proved equal to `Dedup`.
  - The lemmas show that the three properties "no repeats, same elements, first-occurrence order" characterise `Dedup` exactly.
- `Exchange.dfy`: the request, the service, the service-call trace and the response.
- `ProjectServlet.dfy`: the twelve handlers, the two switches, `DoGet` and `DoPost`.
- `ProjectServletProperties.dfy`: lemmas that span handlers. They cover the routing table, the write-handler outcome shape, deadline gating, the single-project branches, and reading the two counts back out of the assignment message.

Four behaviours of the code that are easy to misread; the model follows the code:

- Catching a bad numeric id and reporting "invalid input" happens only in `fetchSingleProject`. The other handlers that parse `proj_id` let `NumberFormatException` escape before they set anything or call the service.
- Only a *missing* action goes to `/index.jsp`. A present but unknown action, including an action that belongs to the other HTTP method, does nothing: no attribute, no forward, no service call, and the container sends an empty response.
- A single-project search that returns exactly one row whose first field is not `"NULL"` does not show the detail view. No dispatcher is chosen, and `forward` on `null` throws. The model keeps this as `Throw(NullPointer)`; see `ProjectServletProperties.SingleRowProjectNeverShown`.
- A one-row answer whose row is empty makes `arr[0]` throw. The model keeps this as `Throw(IndexOutOfBounds)`.

## Model

| member | source | states |
|---|---|---|
| `Exchange.Parameter` | src/main/java/com/ideas2it/projectmanagement/controller/ProjectServlet.java:356 | `getParameter` is present exactly when the parameter has a value, and then it is the first value |
| `Exchange.ParameterValues` | src/main/java/com/ideas2it/projectmanagement/controller/ProjectServlet.java:298 | `getParameterValues` is null exactly when `getParameter` is, and otherwise it starts with that value |
| `Exchange.ParseId` | src/main/java/com/ideas2it/projectmanagement/controller/ProjectServlet.java:64 | parsing a missing parameter fails (`parseInt(null)` throws); otherwise the result is the parser's answer on the text |
| `Decimal.Digits` | src/main/java/com/ideas2it/projectmanagement/controller/ProjectServlet.java:305 | a number's decimal digits are non-empty, all digits, with no leading zero |
| `Decimal.IntToString` | src/main/java/com/ideas2it/projectmanagement/controller/ProjectServlet.java:305 | `"" + n` starts with '-' exactly for negative n, and every character after that sign is a digit |
| `Decimal.IntToStringRoundTrip` | src/main/java/com/ideas2it/projectmanagement/controller/ProjectServlet.java:305 | reading the decimal text of n back gives n |
| `Decimal.ParseDecimalRoundTrip` | src/main/java/com/ideas2it/projectmanagement/controller/ProjectServlet.java:305 | every text the reader accepts is exactly the decimal text of the number it reads, so the two are inverse bijections |
| `Decimal.IntToStringInjective` | src/main/java/com/ideas2it/projectmanagement/controller/ProjectServlet.java:305 | two numbers have the same text if and only if they are equal |
| `InsertionOrderSet.CollectIds` | src/main/java/com/ideas2it/projectmanagement/controller/ProjectServlet.java:300-303 | the loop that adds each value to a fresh `LinkedHashSet` ends with exactly `Dedup(values)` |
| `InsertionOrderSet.DedupSnoc` | src/main/java/com/ideas2it/projectmanagement/controller/ProjectServlet.java:302 | adding one more value appends it unless it is already present |
| `InsertionOrderSet.DedupElements` | src/main/java/com/ideas2it/projectmanagement/controller/ProjectServlet.java:300-303 | the set holds exactly the values given |
| `InsertionOrderSet.DedupNoDuplicates` | src/main/java/com/ideas2it/projectmanagement/controller/ProjectServlet.java:300-303 | the set holds no value twice |
| `InsertionOrderSet.DedupLength` | src/main/java/com/ideas2it/projectmanagement/controller/ProjectServlet.java:300-303 | the set is no larger than the list of values |
| `InsertionOrderSet.DedupOrder` | src/main/java/com/ideas2it/projectmanagement/controller/ProjectServlet.java:300-303 | the set's iteration order is the order of first occurrence in the values |
| `InsertionOrderSet.DedupUnique` | src/main/java/com/ideas2it/projectmanagement/controller/ProjectServlet.java:300-303 | any sequence without repeats, with the same elements, in first-occurrence order, equals `Dedup` |
| `InsertionOrderSet.DedupCharacterised` | src/main/java/com/ideas2it/projectmanagement/controller/ProjectServlet.java:300-303 | `d` is the insertion order of `s` if and only if `d == Dedup(s)` |
| `InsertionOrderSet.DedupOfDistinct` | src/main/java/com/ideas2it/projectmanagement/controller/ProjectServlet.java:300-303 | values without repeats pass through unchanged, in order |
| `ProjectServlet.Report` | src/main/java/com/ideas2it/projectmanagement/controller/ProjectServlet.java:152-156 | one flag picks attribute and view together: `successMessage` with `/SuccessDisplay.jsp`, or `errorMessage` with `/ErrorDisplay.jsp` |
| `ProjectServlet.FetchAllProjectsHandler` | src/main/java/com/ideas2it/projectmanagement/controller/ProjectServlet.java:42-45 | one read call; `allProjectsList` holds the service's project groups; forwards to `/Project.jsp` |
| `ProjectServlet.GetProjectForEdit` | src/main/java/com/ideas2it/projectmanagement/controller/ProjectServlet.java:63-67 | a bad id escapes as NumberFormat with nothing done; otherwise it searches that id, sets `projectDetails` to the rows and forwards to `/ProjectForm.jsp` |
| `ProjectServlet.UpdateProjectDetailsHandler` | src/main/java/com/ideas2it/projectmanagement/controller/ProjectServlet.java:86-105 | a bad id escapes first; a null deadline never reaches the update call and reports exactly "Invalid date input for deadline. Project update unsuccessful."; a valid deadline sends the update with the form's fields and reports exactly "Project update successful." or "Project update unsuccessful.", with no prefix, as the service answered |
| `ProjectServlet.CreateNewProject` | src/main/java/com/ideas2it/projectmanagement/controller/ProjectServlet.java:123-125 | no service call; `operation` is "createProject"; forwards to `/ProjectForm.jsp` |
| `ProjectServlet.AddNewProject` | src/main/java/com/ideas2it/projectmanagement/controller/ProjectServlet.java:144-156 | a null deadline never reaches `addProject` and reports exactly "Invalid input date for deadline. Project creation unsuccessful."; otherwise `addProject` gets the form's fields and its answer picks "Project creation successful." or "Project creation unsuccessful." |
| `ProjectServlet.DeleteProjectHandler` | src/main/java/com/ideas2it/projectmanagement/controller/ProjectServlet.java:174-181 | a bad id escapes; otherwise one delete call, and its answer picks the deletion message, attribute and view |
| `ProjectServlet.GetDeletedProjectsHandler` | src/main/java/com/ideas2it/projectmanagement/controller/ProjectServlet.java:199-202 | one read call; `deletedProjects` holds the answer; forwards to `/DeletedProjects.jsp` |
| `ProjectServlet.RestoreProjectHandler` | src/main/java/com/ideas2it/projectmanagement/controller/ProjectServlet.java:223-230 | a bad id escapes; otherwise one restore call, and its answer picks the restoration message, attribute and view |
| `ProjectServlet.UnassignEmployeeHandler` | src/main/java/com/ideas2it/projectmanagement/controller/ProjectServlet.java:248-256 | a bad id escapes; otherwise one unassign call with the possibly missing `emp_id`, and its answer picks the unassign message, attribute and view |
| `ProjectServlet.GetAssignableEmployeesHandler` | src/main/java/com/ideas2it/projectmanagement/controller/ProjectServlet.java:274-279 | a bad id escapes; otherwise `projectID` holds the parsed id and `assignableEmployees` the service's rows for it; forwards to `/AssignEmployees.jsp` |
| `ProjectServlet.AssignEmployeesHandler` | src/main/java/com/ideas2it/projectmanagement/controller/ProjectServlet.java:297-307 | a bad id escapes first, then a missing `employees` throws NullPointer; otherwise one assign call with the deduplicated ids, and always `successMessage` "(n−u) out of n employees successfully assigned." with `/SuccessDisplay.jsp` |
| `ProjectServlet.FetchSingleProject` | src/main/java/com/ideas2it/projectmanagement/controller/ProjectServlet.java:316-338 | searches the parsed id, or 0 after a caught parse failure. Size ≠ 1 gives `singleProject` and `/SingleProject.jsp`. One row starting "NULL" gives `errorMessage` "Invalid input warning!!!" when parsing failed, else "NO SUCH PROJECT FOUND", and `/ErrorDisplay.jsp`. One empty row throws IndexOutOfBounds. One row starting otherwise throws NullPointer with nothing set |
| `ProjectServlet.DoGet` | src/main/java/com/ideas2it/projectmanagement/controller/ProjectServlet.java:355-385 | a missing action sets only `errorMsg` "Warning: Invalid action", forwards to `/index.jsp` and calls nothing; a known action runs its handler; any other action does nothing at all |
| `ProjectServlet.DoPost` | src/main/java/com/ideas2it/projectmanagement/controller/ProjectServlet.java:398-440 | the same three cases over the eight POST actions |
| `ProjectServletProperties.RoutingMatchesTable` | src/main/java/com/ideas2it/projectmanagement/controller/ProjectServlet.java:369-439 | a switch selects handler h for action a if and only if h belongs to that method and a is its action name |
| `ProjectServletProperties.GetRouting` | src/main/java/com/ideas2it/projectmanagement/controller/ProjectServlet.java:369-381 | the GET switch selects handler h for action a if and only if h is a GET handler named a |
| `ProjectServletProperties.PostRouting` | src/main/java/com/ideas2it/projectmanagement/controller/ProjectServlet.java:412-436 | the POST switch selects handler h for action a if and only if h is a POST handler named a |
| `ProjectServletProperties.ActionNamesDistinct` | src/main/java/com/ideas2it/projectmanagement/controller/ProjectServlet.java:369-439 | no two of the twelve handlers share an action name |
| `ProjectServletProperties.RoutesDisjoint` | src/main/java/com/ideas2it/projectmanagement/controller/ProjectServlet.java:369-439 | no action is known to both switches |
| `ProjectServletProperties.HandlerAlwaysEnds` | src/main/java/com/ideas2it/projectmanagement/controller/ProjectServlet.java:42-343 | every handler forwards or throws; none ends silently |
| `ProjectServletProperties.SilentExactlyOnUnknownAction` | src/main/java/com/ideas2it/projectmanagement/controller/ProjectServlet.java:369-439 | the controller forwards nothing if and only if the action is present but unknown to its method, and then nothing is set or called; the container sends an empty response |
| `ProjectServletProperties.MissingActionSameForBoth` | src/main/java/com/ideas2it/projectmanagement/controller/ProjectServlet.java:355-410 | with no action, GET and POST give identical responses, setting only `errorMsg` |
| `ProjectServletProperties.GetNeverMutates` | src/main/java/com/ideas2it/projectmanagement/controller/ProjectServlet.java:369-384 | no GET request reaches a service mutation |
| `ProjectServletProperties.FixedViewShape` | src/main/java/com/ideas2it/projectmanagement/controller/ProjectServlet.java:42-286 | each fixed-view handler never mutates. It forwards only to its own view, with exactly its own attributes, or fails on the id (edit and assignable lookups only) with nothing done |
| `ProjectServletProperties.ReportShape` | src/main/java/com/ideas2it/projectmanagement/controller/ProjectServlet.java:101-104 | a report always forwards and sets one attribute; the success attribute goes with the success view and the error attribute with the error view |
| `ProjectServletProperties.UpdateShape` | src/main/java/com/ideas2it/projectmanagement/controller/ProjectServlet.java:86-105 | the update handler sets one attribute that agrees with its view, or fails on the id with nothing done |
| `ProjectServletProperties.AddShape` | src/main/java/com/ideas2it/projectmanagement/controller/ProjectServlet.java:144-156 | the add handler always forwards, with one attribute that agrees with its view |
| `ProjectServletProperties.DeleteShape` | src/main/java/com/ideas2it/projectmanagement/controller/ProjectServlet.java:174-181 | the delete handler sets one attribute that agrees with its view, or fails on the id with nothing done |
| `ProjectServletProperties.RestoreShape` | src/main/java/com/ideas2it/projectmanagement/controller/ProjectServlet.java:223-230 | the restore handler sets one attribute that agrees with its view, or fails on the id with nothing done |
| `ProjectServletProperties.UnassignShape` | src/main/java/com/ideas2it/projectmanagement/controller/ProjectServlet.java:248-256 | the unassign handler sets one attribute that agrees with its view, or fails on the id with nothing done |
| `ProjectServletProperties.WriteOutcomeShape` | src/main/java/com/ideas2it/projectmanagement/controller/ProjectServlet.java:86-263 | for all five write handlers: exactly one attribute, attribute and view agree, and a request that is not forwarded failed on its id with nothing done |
| `ProjectServletProperties.WriteSuccessNeedsMutation` | src/main/java/com/ideas2it/projectmanagement/controller/ProjectServlet.java:149-155 | a write handler shows the success view only after it invoked a service mutation |
| `ProjectServletProperties.UpdateGatedByDeadline` | src/main/java/com/ideas2it/projectmanagement/controller/ProjectServlet.java:93-100 | the update is sent if and only if the id parses and the deadline is a date |
| `ProjectServletProperties.AddGatedByDeadline` | src/main/java/com/ideas2it/projectmanagement/controller/ProjectServlet.java:149-151 | `addProject` is called if and only if the deadline is a date |
| `ProjectServletProperties.BadIdEscapes` | src/main/java/com/ideas2it/projectmanagement/controller/ProjectServlet.java:86-87 | each of the seven handlers that parse `proj_id` without catching (edit, update, delete, restore, unassign, assignable lookup, assign) throws NumberFormat on a bad id, with no attribute and no service call |
| `ProjectServletProperties.SingleProjectCatchesBadId` | src/main/java/com/ideas2it/projectmanagement/controller/ProjectServlet.java:317-324 | a bad id is caught: the lookup searches id 0 and never throws a parse error |
| `ProjectServletProperties.SingleRowProjectNeverShown` | src/main/java/com/ideas2it/projectmanagement/controller/ProjectServlet.java:325-338 | through `doGet`, a found project with one detail row ends in NullPointer instead of being displayed |
| `ProjectServletProperties.SingleProjectInvalidInputExample` | src/main/java/com/ideas2it/projectmanagement/controller/ProjectServlet.java:326-331 | `proj_id=abc` with a "NULL" row for id 0 gives the error view and "Invalid input warning!!!" |
| `ProjectServletProperties.AssignmentMessageRoundTrip` | src/main/java/com/ideas2it/projectmanagement/controller/ProjectServlet.java:305 | both counts read back out of the assignment message, so distinct counts give distinct messages |
| `ProjectServletProperties.MessageReadsBack` | src/main/java/com/ideas2it/projectmanagement/controller/ProjectServlet.java:305-306 | a response whose one attribute is `successMessage` holding the assignment message has exactly that key, and both counts read back from it |
| `ProjectServletProperties.AssignmentReport` | src/main/java/com/ideas2it/projectmanagement/controller/ProjectServlet.java:297-307 | once the id parses and `employees` is present: one service call with the ids in insertion order, no larger than the input; always the success view with the one `successMessage` attribute, whose counts read back as (n − u, n), even when n − u is 0 |
| `ProjectServletProperties.AssignmentThroughPost` | src/main/java/com/ideas2it/projectmanagement/controller/ProjectServlet.java:434-435 | a POST with action "assignEmployees" gets exactly the assignment handler's response |
| `ProjectServletProperties.DedupPrefixExample` | src/main/java/com/ideas2it/projectmanagement/controller/ProjectServlet.java:300-303 | E1, E2, E1 collapse to E1, E2 |
| `ProjectServletProperties.DedupExample` | src/main/java/com/ideas2it/projectmanagement/controller/ProjectServlet.java:300-303 | E1, E2, E1, E3 collapse to E1, E2, E3 |
| `ProjectServletProperties.AssignmentMessageExample` | src/main/java/com/ideas2it/projectmanagement/controller/ProjectServlet.java:305 | counts 2 and 3 give exactly "2 out of 3 employees successfully assigned." |
| `ProjectServletProperties.AssignmentExample` | src/main/java/com/ideas2it/projectmanagement/controller/ProjectServlet.java:297-307 | E1, E2, E1, E3 with E2 unassignable: one call with E1, E2, E3, and the success message "2 out of 3 employees successfully assigned." |

## Left out

- The servlet container: the request and response objects, `getRequestDispatcher`, and the forward itself. A forward is a field of the response and is taken to succeed. A container error thrown by `forward` is caught, printed and dropped (lines 46-51 and every handler); the model does not represent it.
- `ProjectServiceImpl` is not part of this model, so its answers are inputs. The model assumes the lists and rows it returns are non-null and hold no null fields, so `"NULL".equals(null)` and `size()` on a null list are not modelled. Its persisted state is not modelled either; no handler reads from the service after it mutates, so the answers of one request do not depend on each other.
- `Integer.parseInt` is an abstract parser, so the digit grammar and the 32-bit range of Java's `int` are not modelled. Project ids are unbounded integers.
- The service's deadline parsing into `java.sql.Date` is an abstract function of the deadline text.
- The `LinkedHashSet` passed to `assignEmployee` is modelled as the sequence of its iteration order.
- `AssignEmployeesHandler`: the service is assumed not to modify the set it receives in `assignEmployee`, so both counts in the message come from the set as built (the code reads `assignableIdSet.size()` only after the call).
- Request attributes set before the controller runs are not modelled. `Response.attributes` holds what the controller sets.
- JSP rendering, the contents of the rows the service returns (they pass through untouched), and `printStackTrace` logging.
