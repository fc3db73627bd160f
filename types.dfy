/** The record shapes and closed enumerations shared by every component:
    priorities, statuses, locations, incident types, the issue record and
    the administrator record. */
module Types {
  import opened Wrappers

  /** A point in time, in milliseconds since the epoch (a JavaScript `Date`,
      which may lie before the epoch). */
  type Time = int

  datatype Priority = High | Moderate | Low

  datatype IssueStatus = Pending | InProgress | Resolved

  datatype IncidentLocation =
    | Classroom | Hostel | Library | Cafeteria | Laboratory
    | Washroom | Parking | Playground | Other

  datatype IncidentType =
    | Medical | Harassment | Fire | Infrastructure | Suspicious | MentalHealth | Other

  datatype AdminRole = Security | Faculty | Management

  /** One submitted report with its derived and administrative fields.
      `severityScore` is documented as lying in 1..10. */
  datatype Issue = Issue(
    id: string,
    location: IncidentLocation,
    customLocation: Option<string>,
    incidentType: Option<IncidentType>,
    description: string,
    dateTime: Time,
    createdAt: Time,
    priority: Priority,
    severityScore: int,
    summary: string,
    suggestedActions: seq<string>,
    status: IssueStatus,
    resolvedAt: Option<Time>,
    assignedTo: Option<string>,
    adminNotes: Option<string>)

  datatype Admin = Admin(
    id: string,
    email: string,
    name: string,
    role: AdminRole,
    avatar: Option<string>,
    phone: Option<string>,
    issuesHandled: int,
    averageResponseTime: int,
    resolutionRate: int)

  const AllPriorities: seq<Priority> := [High, Moderate, Low]

  const AllStatuses: seq<IssueStatus> := [Pending, InProgress, Resolved]

  const AllLocations: seq<IncidentLocation> :=
    [Classroom, Hostel, Library, Cafeteria, Laboratory, Washroom, Parking, Playground, IncidentLocation.Other]

  const AllIncidentTypes: seq<IncidentType> :=
    [Medical, Harassment, Fire, Infrastructure, Suspicious, MentalHealth, IncidentType.Other]

  /** `s` lists every value of `T` exactly once. */
  ghost predicate ListsEachOnce<T(!new)>(s: seq<T>) {
    forall x: T :: multiset(s)[x] == 1
  }

  /** Three priorities, each listed once. */
  lemma AllPrioritiesComplete()
    ensures |AllPriorities| == 3 && ListsEachOnce(AllPriorities)
  {
    forall p: Priority ensures multiset(AllPriorities)[p] == 1 {
      match p { case High => case Moderate => case Low => }
    }
  }

  /** Nine locations, each listed once. */
  lemma AllLocationsComplete()
    ensures |AllLocations| == 9 && ListsEachOnce(AllLocations)
  {
    forall l: IncidentLocation ensures multiset(AllLocations)[l] == 1 {
      match l {
        case Classroom => case Hostel => case Library => case Cafeteria =>
        case Laboratory => case Washroom => case Parking => case Playground =>
        case Other =>
      }
    }
  }

  /** Three statuses, each listed once; the type itself puts no restriction
      on which status may follow which. */
  lemma AllStatusesComplete()
    ensures |AllStatuses| == 3 && ListsEachOnce(AllStatuses)
  {
    forall st: IssueStatus ensures multiset(AllStatuses)[st] == 1 {
      match st { case Pending => case InProgress => case Resolved => }
    }
  }

  /** Seven incident types, each listed once. */
  lemma AllIncidentTypesComplete()
    ensures |AllIncidentTypes| == 7 && ListsEachOnce(AllIncidentTypes)
  {
    forall t: IncidentType ensures multiset(AllIncidentTypes)[t] == 1 {
      match t {
        case Medical => case Harassment => case Fire => case Infrastructure =>
        case Suspicious => case MentalHealth => case Other =>
      }
    }
  }
}
