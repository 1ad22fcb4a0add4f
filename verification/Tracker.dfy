/** The tables of one organization, and who may do what to a bug.

    A user is a number, and a project, bug or tag is its position in its table (rows of these tables
    are never deleted). A table row is a value; the class that changes rows is in `TrackerStore`. */
module Tracker {
  import opened Base
  import opened Workflow
  import opened Relationships

  type UserId = nat
  type ProjectId = nat
  type TagId = nat

  datatype Role = Administrator | Developer | Qa | Reporter | Viewer

  /** The membership a request is made under. */
  datatype Member = Member(user: UserId, role: Role)

  datatype Field =
    | Title | Description | StepsToReproduce | ExpectedResult | ActualResult | Environment | Category
    | DueDate | Priority | Severity

  /** The declaration order of the update serializer, which is the order of `fields.items()`. */
  const ALL_FIELDS: seq<Field> :=
    [Title, Description, StepsToReproduce, ExpectedResult, ActualResult, Environment, Category,
     DueDate, Priority, Severity]

  /** Field values in the text form the log records; an unset due date is the empty string. */
  type Content = map<Field, string>

  datatype Bug = Bug(
    project: ProjectId, number: nat, key: string, reporter: UserId, createdAt: int,
    fields: Content, status: Status, assignee: Option<UserId>,
    resolvedAt: Option<int>, closedAt: Option<int>, archivedAt: Option<int>,
    version: nat, tags: set<TagId>)
  {
    function Stamps(): Stamps {
      Workflow.Stamps(resolvedAt, closedAt)
    }
  }

  datatype Project = Project(key: string, archivedAt: Option<int>, nextBugNumber: nat, lead: Option<UserId>)
  datatype Tag = Tag(name: string, normalized: string)

  /** One activity row: the verb with its from/to values and metadata. */
  datatype Event =
    | Created(key: string)
    | StatusChanged(fromStatus: Status, toStatus: Status)
    | AssignedTo(fromEmail: string, toEmail: string)
    | Unassigned(fromEmail: string)
    | PriorityChanged(from: string, to: string)
    | SeverityChanged(from: string, to: string)
    | FieldUpdated(field: Field, from: string, to: string)
    | TagAdded(name: string)
    | TagRemoved(name: string)
    | RelationshipAdded(kind: RelKind, other: string)
    | RelationshipRemoved(kind: RelKind, other: string)
    | BugWasArchived
    | BugWasRestored

  datatype Activity = Activity(bug: BugId, actor: Option<UserId>, at: int, event: Event)

  datatype World = World(
    members: map<UserId, Role>,
    projects: seq<Project>,
    bugs: seq<Bug>,
    tags: seq<Tag>,
    rels: Rels,
    log: seq<Activity>)

  const EMPTY_WORLD := World(map[], [], [], [], map[], [])

  /** What the services take from outside the tables: workflow providers, users' e-mail addresses,
      the text functions behind tag names, and the protected demo personas. */
  datatype Config = Config(
    providers: map<ProjectId, Matrix>,
    email: UserId -> string,
    strip: string -> string,
    lower: string -> string,
    demoUsers: set<UserId>)

  datatype Error =
    | BugPermissionDenied | DoesNotExist | BugVersionConflict | BugArchived | ProjectArchivedForBugMutation
    | ProjectArchivedForBugCreation | BugAlreadyArchived | BugNotArchived | IneligibleAssignee
    | AssigneeRequiredForTransition | InvalidTagName | InvalidWorkflowTransition | DuplicateTargetRequired
    | DuplicateTargetArchived | DuplicateCycleDetected | DuplicateChainUnverifiable
    | InvalidRelationshipType | DuplicateBugRelationship | SelfRelationshipNotAllowed
    | RelatedBugNotFound | RelationshipNotFound | ValueTooLongForLog | TagKeyTooLong | IdTaken
    | LastAdministrator | ProtectedDemoAccount
    | InvalidProjectKey | DuplicateProjectKey | InvalidProjectLead | ArchivedProjectNotEditable
    | ProjectAlreadyArchived | ProjectNotArchived

  /** Width of both name columns of the tag table. */
  const MAX_TAG_NAME_LENGTH: nat := 50
  /** Width of the from_value and to_value columns of the activity table. */
  const MAX_LOG_VALUE_LENGTH: nat := 255

  // ---------------------------------------------------------------------------------------------
  // Policies

  const STAFF_ROLES: set<Role> := {Administrator, Developer, Qa}
  const CREATE_ROLES: set<Role> := {Administrator, Developer, Qa, Reporter}
  const REPORTER_EDITABLE_STATUSES: set<Status> := {New, Triaged}
  const REPORTER_EDITABLE_FIELDS: set<Field> :=
    {Title, Description, StepsToReproduce, ExpectedResult, ActualResult, Environment, Category}
  const STAFF_EDITABLE_FIELDS: set<Field> := REPORTER_EDITABLE_FIELDS + {DueDate, Priority, Severity}

  predicate IsStaff(m: Option<Member>) {
    m.Some? && m.value.role in STAFF_ROLES
  }

  predicate IsAdministrator(m: Option<Member>) {
    m.Some? && m.value.role == Administrator
  }

  function EditableFieldsFor(bug: Bug, m: Option<Member>): set<Field> {
    if m.None? then {}
    else if m.value.role in STAFF_ROLES then STAFF_EDITABLE_FIELDS
    else if m.value.role == Reporter && bug.reporter == m.value.user && bug.status in REPORTER_EDITABLE_STATUSES
    then REPORTER_EDITABLE_FIELDS
    else {}
  }

  predicate CanChangeStatus(bug: Bug, m: Option<Member>, target: Status) {
    m.Some? &&
    (m.value.role in STAFF_ROLES ||
     (m.value.role == Reporter && bug.reporter == m.value.user &&
      bug.status in TERMINAL_STATUSES && target == Reopened))
  }

  predicate IsEligibleAssignee(w: World, u: UserId) {
    u in w.members && w.members[u] in STAFF_ROLES
  }

  predicate ProjectIsArchived(w: World, p: ProjectId) {
    p < |w.projects| && w.projects[p].archivedAt.Some?
  }
}
