/**
 * Properties of the project controller that relate several handlers, or a
 * handler to an independent description of what it should do.
 */
module ProjectServletProperties {
  import opened Wrappers
  import opened Decimal
  import opened InsertionOrderSet
  import opened Exchange
  import opened ProjectServlet

  datatype HttpMethod = Get | Post

  /** The routing table: the method and `action` value of each handler. */
  function Verb(h: Handler): HttpMethod {
    match h
    case FetchAll | FetchSingle | GetDeleted | GetAssignable => Get
    case _ => Post
  }

  function ActionName(h: Handler): string {
    match h
    case FetchAll => "displayAll"
    case FetchSingle => "singleProject"
    case GetDeleted => "getDeletedProjects"
    case GetAssignable => "getAssignableEmployees"
    case EditDetails => "editDetails"
    case UpdateProject => "updateProject"
    case CreateProject => "createProject"
    case AddNewProjectAction => "addNewProject"
    case Delete => "deleteProject"
    case Restore => "restoreProject"
    case Unassign => "unassignEmployee"
    case Assign => "assignEmployees"
  }

  function Route(m: HttpMethod, action: string): Option<Handler> {
    match m
    case Get => GetHandler(action)
    case Post => PostHandler(action)
  }

  function Serve(m: HttpMethod, req: Request, svc: Service, parseInt: string -> Option<int>): Response {
    match m
    case Get => DoGet(req, svc, parseInt)
    case Post => DoPost(req, svc, parseInt)
  }

  /** No two handlers share an action name. */
  lemma ActionNamesDistinct(h1: Handler, h2: Handler)
    ensures ActionName(h1) == ActionName(h2) ==> h1 == h2
  {
    if ActionName(h1) == ActionName(h2) {
      var a := ActionName(h1);
      assert a[0] == ActionName(h2)[0] && |a| == |ActionName(h2)|;
    }
  }

  /**
   * Each switch selects a handler exactly for that handler's own action name
   * and method: every action in the routing table reaches its handler, and nothing else does.
   */
  lemma RoutingMatchesTable(m: HttpMethod, action: string, h: Handler)
    ensures Route(m, action) == Some(h) <==> Verb(h) == m && ActionName(h) == action
  {
    match m
    case Get => GetRouting(action, h);
    case Post => PostRouting(action, h);
  }

  lemma GetRouting(action: string, h: Handler)
    ensures GetHandler(action) == Some(h) <==> Verb(h) == Get && ActionName(h) == action
  {
    if Verb(h) == Get && ActionName(h) == action {
      assert GetHandler(action) == Some(h);
    }
  }

  lemma PostRouting(action: string, h: Handler)
    ensures PostHandler(action) == Some(h) <==> Verb(h) == Post && ActionName(h) == action
  {
    if Verb(h) == Post && ActionName(h) == action {
      assert PostHandler(action) == Some(h);
    }
  }

  /** An action name belongs to at most one of the two switches. */
  lemma RoutesDisjoint(action: string)
    ensures GetHandler(action).None? || PostHandler(action).None?
  {
  }

  /** Every handler ends by forwarding or by throwing, never silently. */
  lemma HandlerAlwaysEnds(h: Handler, req: Request, svc: Service, parseInt: string -> Option<int>)
    ensures !Run(h, req, svc, parseInt).ending.NoForward?
  {
  }

  /**
   * The controller sets nothing and forwards nothing exactly when the action is
   * present but unknown to that method; the container then sends an empty response.
   */
  lemma SilentExactlyOnUnknownAction(m: HttpMethod, req: Request, svc: Service, parseInt: string -> Option<int>)
    ensures var r := Serve(m, req, svc, parseInt);
            r.ending.NoForward? <==> Parameter(req, ActionParam).Some? && Route(m, Parameter(req, ActionParam).value).None?
    ensures var r := Serve(m, req, svc, parseInt);
            r.ending.NoForward? ==> r.attributes == map[] && r.calls == []
  {
    match Parameter(req, ActionParam)
    case None =>
    case Some(action) =>
      match Route(m, action)
      case None =>
      case Some(h) => HandlerAlwaysEnds(h, req, svc, parseInt);
  }

  /** A missing action is answered identically by both methods, without calling the service. */
  lemma MissingActionSameForBoth(req: Request, svc: Service, parseInt: string -> Option<int>)
    requires Parameter(req, ActionParam).None?
    ensures DoGet(req, svc, parseInt) == DoPost(req, svc, parseInt)
    ensures DoGet(req, svc, parseInt).attributes.Keys == {ErrorMsg}
  {
  }

  /** GET requests never reach a service mutation. */
  lemma GetNeverMutates(req: Request, svc: Service, parseInt: string -> Option<int>)
    ensures !MutationInvoked(DoGet(req, svc, parseInt).calls)
  {
    match Parameter(req, ActionParam)
    case None =>
    case Some(action) =>
      match GetHandler(action)
      case None =>
      case Some(h) =>
        var calls := Run(h, req, svc, parseInt).calls;
        assert calls == [] || (|calls| == 1 && !calls[0].IsMutation());
  }

  /** The fixed-view handlers: each has one fixed view and the attributes it fills. */
  predicate IsFixedViewHandler(h: Handler) {
    h == FetchAll || h == GetDeleted || h == GetAssignable || h == EditDetails || h == CreateProject
  }

  function FixedView(h: Handler): string
    requires IsFixedViewHandler(h)
  {
    match h
    case FetchAll => ProjectView
    case GetDeleted => DeletedProjectsView
    case GetAssignable => AssignEmployeesView
    case EditDetails | CreateProject => ProjectFormView
  }

  function FilledAttributes(h: Handler): set<string>
    requires IsFixedViewHandler(h)
  {
    match h
    case FetchAll => {AllProjectsList}
    case GetDeleted => {DeletedProjects}
    case GetAssignable => {ProjectId, AssignableEmployees}
    case EditDetails => {ProjectDetails}
    case CreateProject => {Operation}
  }

  /**
   * A fixed-view handler either forwards to its own view with exactly its own
   * attributes, or fails on the project id having done nothing; it never mutates.
   */
  lemma FixedViewShape(h: Handler, req: Request, svc: Service, parseInt: string -> Option<int>)
    requires IsFixedViewHandler(h)
    ensures var r := Run(h, req, svc, parseInt);
            !MutationInvoked(r.calls)
            && (r.ending.Forward? ==> r.ending.view == FixedView(h) && r.attributes.Keys == FilledAttributes(h))
            && (!r.ending.Forward? ==> r == Uncaught(NumberFormat, []) && (h == GetAssignable || h == EditDetails))
  {
    var r := Run(h, req, svc, parseInt);
    assert r.calls == [] || (|r.calls| == 1 && !r.calls[0].IsMutation());
  }

  predicate IsWriteHandler(h: Handler) {
    h == UpdateProject || h == AddNewProjectAction || h == Delete || h == Restore || h == Unassign
  }

  /**
   * The shape of a write handler's outcome: exactly one attribute, the
   * success attribute with the success view and the error attribute with
   * the error view, or else a failure on the project id with nothing done.
   */
  predicate WriteShaped(r: Response) {
    if r.ending.Forward? then
      |r.attributes| == 1
      && (SuccessMessage in r.attributes <==> r.ending.view == SuccessView)
      && (ErrorMessage in r.attributes <==> r.ending.view == ErrorView)
      && (r.ending.view == SuccessView || r.ending.view == ErrorView)
    else r == Uncaught(NumberFormat, [])
  }

  /** Every report has the shape. */
  lemma ReportShape(r: Response, success: bool, message: string)
    requires Reports(r, success, message)
    ensures WriteShaped(r) && r.ending.Forward?
  {
    assert r.attributes.Keys == {SuccessMessage} || r.attributes.Keys == {ErrorMessage};
  }

  lemma UpdateShape(req: Request, svc: Service, parseInt: string -> Option<int>)
    ensures WriteShaped(UpdateProjectDetailsHandler(req, svc, parseInt))
  {
    var r := UpdateProjectDetailsHandler(req, svc, parseInt);
    var id := ParseId(Parameter(req, ProjIdParam), parseInt);
    var deadline := svc.getDeadline(Parameter(req, DeadlineParam));
    if id.Some? {
      if deadline.Some? {
        var success := svc.updateProjectDetails(id.value, Parameter(req, NameParam), Parameter(req, ManagerParam),
                                                Parameter(req, ClientParam), deadline.value);
        ReportShape(r, success, if success then "Project update successful." else "Project update unsuccessful.");
      } else {
        ReportShape(r, false, UpdateDeadlineWarning + "Project update unsuccessful.");
      }
    }
  }

  lemma AddShape(req: Request, svc: Service)
    ensures WriteShaped(AddNewProject(req, svc))
  {
    var r := AddNewProject(req, svc);
    var deadline := svc.getDeadline(Parameter(req, DeadlineParam));
    if deadline.Some? {
      var success := svc.addProject(Parameter(req, NameParam), Parameter(req, ManagerParam),
                                    Parameter(req, ClientParam), deadline.value);
      ReportShape(r, success, if success then "Project creation successful." else "Project creation unsuccessful.");
    } else {
      ReportShape(r, false, AddDeadlineWarning + "Project creation unsuccessful.");
    }
  }

  lemma DeleteShape(req: Request, svc: Service, parseInt: string -> Option<int>)
    ensures WriteShaped(DeleteProjectHandler(req, svc, parseInt))
  {
    var id := ParseId(Parameter(req, ProjIdParam), parseInt);
    if id.Some? {
      var success := svc.deleteProject(id.value);
      ReportShape(DeleteProjectHandler(req, svc, parseInt), success,
                  if success then "Project deletion successful." else "Project deletion unsuccessful.");
    }
  }

  lemma RestoreShape(req: Request, svc: Service, parseInt: string -> Option<int>)
    ensures WriteShaped(RestoreProjectHandler(req, svc, parseInt))
  {
    var id := ParseId(Parameter(req, ProjIdParam), parseInt);
    if id.Some? {
      var success := svc.restoreProject(id.value);
      ReportShape(RestoreProjectHandler(req, svc, parseInt), success,
                  if success then "Project restoration successful." else "Project restoration unsuccessful.");
    }
  }

  lemma UnassignShape(req: Request, svc: Service, parseInt: string -> Option<int>)
    ensures WriteShaped(UnassignEmployeeHandler(req, svc, parseInt))
  {
    var id := ParseId(Parameter(req, ProjIdParam), parseInt);
    if id.Some? {
      var success := svc.unassignEmployee(Parameter(req, EmpIdParam), id.value);
      ReportShape(UnassignEmployeeHandler(req, svc, parseInt), success,
                  if success then "Employee unassign successful." else "Employee unassign unsuccessful.");
    }
  }

  /** All five write handlers' outcomes have the shape. */
  lemma WriteOutcomeShape(h: Handler, req: Request, svc: Service, parseInt: string -> Option<int>)
    requires IsWriteHandler(h)
    ensures WriteShaped(Run(h, req, svc, parseInt))
  {
    match h
    case UpdateProject => UpdateShape(req, svc, parseInt);
    case AddNewProjectAction => AddShape(req, svc);
    case Delete => DeleteShape(req, svc, parseInt);
    case Restore => RestoreShape(req, svc, parseInt);
    case Unassign => UnassignShape(req, svc, parseInt);
  }

  /** A write handler reports success only after it invoked a service mutation. */
  lemma WriteSuccessNeedsMutation(h: Handler, req: Request, svc: Service, parseInt: string -> Option<int>)
    requires IsWriteHandler(h)
    ensures var r := Run(h, req, svc, parseInt);
            r.ending == Forward(SuccessView) ==> MutationInvoked(r.calls)
  {
    var r := Run(h, req, svc, parseInt);
    if r.ending == Forward(SuccessView) {
      assert r.calls[|r.calls| - 1].IsMutation();
    }
  }

  /** The update is sent to the service exactly when the id parses and the deadline is a date. */
  lemma UpdateGatedByDeadline(req: Request, svc: Service, parseInt: string -> Option<int>)
    ensures MutationInvoked(UpdateProjectDetailsHandler(req, svc, parseInt).calls)
            <==> ParseId(Parameter(req, ProjIdParam), parseInt).Some? && svc.getDeadline(Parameter(req, DeadlineParam)).Some?
  {
    var calls := UpdateProjectDetailsHandler(req, svc, parseInt).calls;
    if ParseId(Parameter(req, ProjIdParam), parseInt).Some? && svc.getDeadline(Parameter(req, DeadlineParam)).Some? {
      assert calls[1].IsMutation();
    }
  }

  /** The new project is sent to the service exactly when the deadline is a date. */
  lemma AddGatedByDeadline(req: Request, svc: Service)
    ensures MutationInvoked(AddNewProject(req, svc).calls) <==> svc.getDeadline(Parameter(req, DeadlineParam)).Some?
  {
    var calls := AddNewProject(req, svc).calls;
    if svc.getDeadline(Parameter(req, DeadlineParam)).Some? {
      assert calls[1].IsMutation();
    }
  }

  predicate ParsesIdUncaught(h: Handler) {
    h == EditDetails || h == UpdateProject || h == Delete || h == Restore
    || h == Unassign || h == GetAssignable || h == Assign
  }

  /** Every handler that parses `proj_id` without catching lets a bad id escape before it sets anything or calls the service. */
  lemma BadIdEscapes(h: Handler, req: Request, svc: Service, parseInt: string -> Option<int>)
    requires ParsesIdUncaught(h)
    requires ParseId(Parameter(req, ProjIdParam), parseInt).None?
    ensures Run(h, req, svc, parseInt) == Uncaught(NumberFormat, [])
  {
  }

  /** `fetchSingleProject` catches a bad project id: it searches id 0 and never throws a parse error. */
  lemma SingleProjectCatchesBadId(req: Request, svc: Service, parseInt: string -> Option<int>)
    requires ParseId(Parameter(req, ProjIdParam), parseInt).None?
    ensures var r := FetchSingleProject(req, svc, parseInt);
            r.calls == [SearchIndividualProject(0)] && r.ending != Throw(NumberFormat)
  {
  }

  /**
   * A project whose details come back as exactly one row that is not the
   * not-found sentinel is never displayed: the request ends in an exception.
   */
  lemma SingleRowProjectNeverShown(req: Request, svc: Service, parseInt: string -> Option<int>)
    requires Parameter(req, ActionParam) == Some("singleProject")
    requires ParseId(Parameter(req, ProjIdParam), parseInt).Some?
    requires var rows := svc.searchIndividualProject(ParseId(Parameter(req, ProjIdParam), parseInt).value);
             |rows| == 1 && |rows[0]| > 0 && rows[0][0] != "NULL"
    ensures DoGet(req, svc, parseInt).ending == Throw(NullPointer)
  {
  }

  /** Example: a non-numeric id whose fallback search says "NULL" gets the invalid-input warning. */
  lemma SingleProjectInvalidInputExample(req: Request, svc: Service, parseInt: string -> Option<int>, rest: seq<string>)
    requires Parameter(req, ProjIdParam) == Some("abc") && parseInt("abc").None?
    requires svc.searchIndividualProject(0) == [["NULL"] + rest]
    ensures var r := FetchSingleProject(req, svc, parseInt);
            r.ending == Forward(ErrorView) && r.attributes == map[ErrorMessage := Text("Invalid input warning!!!")]
  {
    assert (["NULL"] + rest)[0] == "NULL";
  }

  /** Splits off the leading run of characters other than a space. */
  function SplitWord(s: string): (parts: (string, string))
    ensures parts.0 + parts.1 == s
  {
    if s == [] || s[0] == ' ' then ([], s)
    else
      var (word, rest) := SplitWord(s[1..]);
      ([s[0]] + word, rest)
  }

  const OutOf := " out of "
  const AssignedSuffix := " employees successfully assigned."

  /** Reads the two counts back out of an assignment message. */
  function ParseAssignmentMessage(m: string): Option<(int, int)> {
    var (first, rest) := SplitWord(m);
    if |rest| < |OutOf| || rest[..|OutOf|] != OutOf then None
    else
      var (second, tail) := SplitWord(rest[|OutOf|..]);
      if tail != AssignedSuffix then None
      else
        match (ParseDecimal(first), ParseDecimal(second))
        case (Some(succeeded), Some(requested)) => Some((succeeded, requested))
        case _ => None
  }

  lemma {:induction false} SplitWordOf(w: string, rest: string)
    requires forall i :: 0 <= i < |w| ==> w[i] != ' '
    requires |rest| > 0 && rest[0] == ' '
    ensures SplitWord(w + rest) == (w, rest)
  {
    if w != [] {
      assert (w + rest)[1..] == w[1..] + rest;
      SplitWordOf(w[1..], rest);
      assert [w[0]] + w[1..] == w;
    } else {
      assert w + rest == rest;
    }
  }

  /** The decimal text of a number holds no space, so it is one word. */
  lemma NoSpaceInNumber(n: int)
    ensures forall i :: 0 <= i < |IntToString(n)| ==> IntToString(n)[i] != ' '
  {
    var s := IntToString(n);
    forall i | 0 <= i < |s|
      ensures s[i] != ' '
    {
      if i == 0 && n < 0 {
        assert s[0] == '-';
      } else {
        assert IsDigit(s[i]);
      }
    }
  }

  /** The assignment message determines both counts it was built from. */
  lemma AssignmentMessageRoundTrip(succeeded: int, requested: int)
    ensures ParseAssignmentMessage(AssignmentMessage(succeeded, requested)) == Some((succeeded, requested))
  {
    var a, n := IntToString(succeeded), IntToString(requested);
    var tail := n + AssignedSuffix;
    var rest := OutOf + tail;
    assert AssignmentMessage(succeeded, requested) == a + rest;
    NoSpaceInNumber(succeeded);
    NoSpaceInNumber(requested);
    SplitWordOf(a, rest);
    assert rest[..|OutOf|] == OutOf;
    assert rest[|OutOf|..] == tail;
    SplitWordOf(n, AssignedSuffix);
    IntToStringRoundTrip(succeeded);
    IntToStringRoundTrip(requested);
  }

  /**
   * `assignEmployees`: one service call with the distinct requested ids in
   * first-occurrence order, and a success message from which "requested
   * minus unassignable out of requested" reads back.
   */
  lemma AssignmentReport(req: Request, svc: Service, parseInt: string -> Option<int>)
    requires ParseId(Parameter(req, ProjIdParam), parseInt).Some?
    requires ParameterValues(req, EmployeesParam).Some?
    ensures var values := ParameterValues(req, EmployeesParam).value;
            var projectId := ParseId(Parameter(req, ProjIdParam), parseInt).value;
            var ids := Dedup(values);
            var unassignable := svc.assignEmployee(projectId, ids);
            var r := AssignEmployeesHandler(req, svc, parseInt);
            r.calls == [AssignEmployee(projectId, ids)]
            && IsInsertionOrderOf(values, ids) && |ids| <= |values|
            && r.ending == Forward(SuccessView)
            && r.attributes.Keys == {SuccessMessage}
            && ParseAssignmentMessage(r.attributes[SuccessMessage].text) == Some((|ids| - |unassignable|, |ids|))
  {
    var values := ParameterValues(req, EmployeesParam).value;
    var projectId := ParseId(Parameter(req, ProjIdParam), parseInt).value;
    var ids := Dedup(values);
    DedupCharacterised(values, ids);
    DedupLength(values);
    var succeeded := |ids| - |svc.assignEmployee(projectId, ids)|;
    MessageReadsBack(AssignEmployeesHandler(req, svc, parseInt), succeeded, |ids|);
  }

  /** A response whose one attribute is the assignment message yields both counts back. */
  lemma MessageReadsBack(r: Response, succeeded: int, requested: int)
    requires r.attributes == map[SuccessMessage := Text(AssignmentMessage(succeeded, requested))]
    ensures r.attributes.Keys == {SuccessMessage}
    ensures ParseAssignmentMessage(r.attributes[SuccessMessage].text) == Some((succeeded, requested))
  {
    AssignmentMessageRoundTrip(succeeded, requested);
  }

  /** `doPost` with action "assignEmployees" is that handler. */
  lemma AssignmentThroughPost(req: Request, svc: Service, parseInt: string -> Option<int>)
    requires Parameter(req, ActionParam) == Some("assignEmployees")
    ensures DoPost(req, svc, parseInt) == AssignEmployeesHandler(req, svc, parseInt)
  {
    assert PostHandler("assignEmployees") == Some(Assign);
  }

  /** The first three values of the example below: "E1" comes back. */
  lemma DedupPrefixExample()
    ensures Dedup(["E1", "E2", "E1"]) == ["E1", "E2"]
  {
    DedupSnoc([], "E1");
    assert [] + ["E1"] == ["E1"];
    DedupSnoc(["E1"], "E2");
    assert ["E1"] + ["E2"] == ["E1", "E2"];
    DedupSnoc(["E1", "E2"], "E1");
    assert ["E1", "E2"] + ["E1"] == ["E1", "E2", "E1"];
  }

  /** The repeated value "E1" is kept once, at its first position. */
  lemma DedupExample()
    ensures Dedup(["E1", "E2", "E1", "E3"]) == ["E1", "E2", "E3"]
  {
    DedupPrefixExample();
    DedupSnoc(["E1", "E2", "E1"], "E3");
    assert ["E1", "E2", "E1"] + ["E3"] == ["E1", "E2", "E1", "E3"];
    assert ["E1", "E2"] + ["E3"] == ["E1", "E2", "E3"];
  }

  // The example message is compared with its literal a word at a time, in
  // separate lemmas: one equality between long string literals, or several
  // in one proof, is costly for the solver.
  lemma ExampleWordEmployees()
    ensures "2 out of 3" + " employees" == "2 out of 3 employees"
  {}

  lemma ExampleWordSuccessfully()
    ensures "2 out of 3 employees" + " successfully" == "2 out of 3 employees successfully"
  {}

  lemma ExampleWordAssigned()
    ensures "2 out of 3 employees successfully" + " assigned." == "2 out of 3 employees successfully assigned."
  {}

  lemma SuffixWords()
    ensures " employees" + " successfully" + " assigned." == AssignedSuffix
  {}

  lemma AppendWords(s: string, a: string, b: string, c: string)
    ensures s + (a + b + c) == s + a + b + c
  {}

  /** Two of three requested employees assigned. */
  lemma AssignmentMessageExample()
    ensures AssignmentMessage(2, 3) == "2 out of 3 employees successfully assigned."
  {
    assert IntToString(2) == "2" by { assert Digits(2) == ['2']; }
    assert IntToString(3) == "3" by { assert Digits(3) == ['3']; }
    assert "2" + OutOf + "3" == "2 out of 3";
    SuffixWords();
    AppendWords("2 out of 3", " employees", " successfully", " assigned.");
    ExampleWordEmployees();
    ExampleWordSuccessfully();
    ExampleWordAssigned();
  }

  /** Example: three requested employees (one repeated), one of them unassignable. */
  lemma AssignmentExample(req: Request, svc: Service, parseInt: string -> Option<int>, projectId: int)
    requires ParseId(Parameter(req, ProjIdParam), parseInt) == Some(projectId)
    requires ParameterValues(req, EmployeesParam) == Some(["E1", "E2", "E1", "E3"])
    requires svc.assignEmployee(projectId, ["E1", "E2", "E3"]) == ["E2"]
    ensures var r := AssignEmployeesHandler(req, svc, parseInt);
            r.calls == [AssignEmployee(projectId, ["E1", "E2", "E3"])]
            && r.attributes == map[SuccessMessage := Text("2 out of 3 employees successfully assigned.")]
            && r.ending == Forward(SuccessView)
  {
    DedupExample();
    AssignmentMessageExample();
  }
}
