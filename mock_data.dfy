/** The seed contents of the issue store, the seed administrator and the
    display label tables. The seed times are offsets from the moment the
    module is loaded, which is a parameter here. */
module MockData {
  import opened Wrappers
  import opened Types
  import AiProcessor

  /** One minute and one hour, in milliseconds. */
  const Minute: int := 1000 * 60
  const Hour: int := 60 * Minute

  /** The free text of a seed: the report, its stored summary and its stored
      suggested actions. Only the three-actions property of the seeds below
      depends on it, so the seed table takes it as a parameter. The texts are written as sums of
      short literals; the sum denotes the same string. */
  datatype SeedText = SeedText(description: string, summary: string, actions: seq<string>)

  /** A seed issue reported `age` milliseconds before `loadTime`, with its
      report time equal to its creation time and no optional field set. */
  function SeedIssue(id: string, location: IncidentLocation, t: IncidentType, text: SeedText,
                     age: int, priority: Priority, severity: int, status: IssueStatus,
                     loadTime: Time): (r: Issue)
    ensures r.id == id && r.location == location && r.createdAt == r.dateTime == loadTime - age
    ensures r.incidentType == Some(t) && r.priority == priority && r.severityScore == severity
    ensures r.description == text.description && r.summary == text.summary
    ensures r.suggestedActions == text.actions && r.status == status
    ensures r.customLocation == None && r.resolvedAt == None
    ensures r.assignedTo == None && r.adminNotes == None
  {
    Issue(id, location, None, Some(t), text.description, loadTime - age, loadTime - age,
          priority, severity, text.summary, text.actions, status, None, None, None)
  }

  /** The six seeds of `mockIssues`, newest first, with the texts `x1` to `x6`:
      seed "2" is assigned to the security team and seed "5" was resolved
      twelve hours before loading. */
  function Seeds(x1: SeedText, x2: SeedText, x3: SeedText, x4: SeedText, x5: SeedText,
                 x6: SeedText, loadTime: Time): seq<Issue>
  {
    [SeedIssue("1", Hostel, Medical, x1, 30 * Minute, High, 9, Pending, loadTime),
     SeedIssue("2", Parking, Suspicious, x2, 2 * Hour, High, 8, InProgress, loadTime)
       .(assignedTo := Some("security_team")),
     SeedIssue("3", Laboratory, Fire, x3, 5 * Hour, Moderate, 6, InProgress, loadTime),
     SeedIssue("4", Cafeteria, Infrastructure, x4, 24 * Hour, Moderate, 5, Pending, loadTime),
     SeedIssue("5", Library, Infrastructure, x5, 48 * Hour, Low, 4, Resolved, loadTime)
       .(resolvedAt := Some(loadTime - 12 * Hour)),
     SeedIssue("6", Playground, IncidentType.Other, x6, 72 * Hour, Low, 2, Pending, loadTime)]
  }

  /** The texts of the seeds, in seed order: `SeedTextAt(0)` belongs to seed
      "1" and `SeedTextAt(5)` to seed "6". */
  function SeedTextAt(i: nat): SeedText
    requires i < 6
  {
    match i
    case 0 =>
      SeedText(
        "A student " + "collapsed " + "in the " + "hostel " + "corridor " + "near room " +
        "204. They " + "appear to " + "be " + "unconscious " + "and not " + "responding. " +
        "Some " + "students " + "tried to " + "help but " + "the person " + "is still " +
        "unresponsive. " + "Need " + "immediate " + "medical " + "attention.",
        "Unconscious " + "student " + "found in " + "hostel " + "corridor " + "near room " +
        "204. " + "Immediate " + "medical " + "response " + "required. " + "Student is " +
        "unresponsive " + "to initial " + "aid " + "attempts.",
        ["Dispatch " + "medical " + "response " + "team " + "immediately",
         "Alert " + "hostel " + "warden",
         "Prepare for " + "potential " + "emergency " + "transport"])
    case 1 =>
      SeedText(
        "There is an " + "unknown " + "person who " + "has been " + "wandering " + "around the " +
        "parking " + "area for " + "the past " + "hour. They " + "seem to be " + "checking " +
        "car doors " + "and looking " + "into " + "windows. " + "They are " + "wearing a " +
        "dark hoodie " + "and " + "avoiding " + "the " + "security " + "cameras.",
        "Suspicious " + "individual " + "observed " + "checking " + "vehicles in " + "parking " +
        "area for " + "extended " + "period. " + "Subject " + "actively " + "avoiding " +
        "surveillance.",
        ["Alert " + "security " + "team " + "immediately",
         "Review " + "parking lot " + "CCTV footage",
         "Increase " + "patrol " + "frequency " + "in area"])
    case 2 =>
      SeedText(
        "There was a " + "small fire " + "in " + "Chemistry " + "Lab 3 due " + "to an " +
        "experiment " + "gone wrong. " + "The fire " + "was " + "contained " + "but there " +
        "is " + "significant " + "smoke and " + "some " + "equipment " + "damage. The " +
        "lab needs " + "inspection " + "before it " + "can be used " + "again.",
        "Contained " + "fire " + "incident in " + "Chemistry " + "Lab 3. " + "Equipment " +
        "damage " + "present. " + "Lab " + "requires " + "safety " + "inspection " + "before " +
        "reopening.",
        ["Schedule " + "safety " + "inspection",
         "Document " + "equipment " + "damage for " + "insurance",
         "Review lab " + "safety " + "protocols " + "with " + "students"])
    case 3 =>
      SeedText(
        "Several " + "ceiling " + "tiles in " + "the " + "cafeteria " + "are loose " +
        "and look " + "like they " + "might fall. " + "This has " + "been an " + "issue for a " +
        "few weeks " + "but it " + "seems to be " + "getting " + "worse. The " + "area near " +
        "the " + "entrance is " + "particularly " + "affected.",
        "Deteriorating " + "ceiling " + "tiles in " + "cafeteria " + "entrance " + "area. " +
        "Progressive " + "damage " + "observed " + "over weeks. " + "Potential " + "falling " +
        "hazard.",
        ["Cordon off " + "affected " + "area",
         "Schedule " + "maintenance " + "repair",
         "Assess " + "structural " + "integrity"])
    case 4 =>
      SeedText(
        "Some of the " + "emergency " + "exit lights " + "in the " + "library " + "basement " +
        "are not " + "working. " + "Noticed " + "this while " + "studying " + "late " +
        "yesterday. " + "Could be a " + "problem if " + "there is an " + "actual " +
        "emergency.",
        "Non-functional " + "emergency " + "exit lights " + "in library " + "basement. " +
        "Safety " + "compliance " + "issue " + "requiring " + "maintenance.",
        ["Submit " + "maintenance " + "work order",
         "Check all " + "emergency " + "lighting in " + "building",
         "Update fire " + "safety " + "compliance " + "records"])
    case _ =>
      SeedText(
        "The water " + "fountain " + "near the " + "basketball " + "court has " + "been " +
        "leaking for " + "days. There " + "is a small " + "puddle " + "forming " + "which can " +
        "be " + "slippery. " + "Not urgent " + "but should " + "be fixed " + "soon.",
        "Leaking " + "water " + "fountain " + "near " + "basketball " + "court " + "creating " +
        "slip " + "hazard. " + "Ongoing for " + "multiple " + "days.",
        ["Place wet " + "floor " + "signage",
         "Schedule " + "plumbing " + "repair",
         "Monitor for " + "worsening"])
  }

  /** `mockIssues`: the seeds with their texts. */
  function MockIssues(loadTime: Time): seq<Issue> {
    Seeds(SeedTextAt(0), SeedTextAt(1), SeedTextAt(2), SeedTextAt(3), SeedTextAt(4), SeedTextAt(5), loadTime)
  }

  /** The seeds carry the ids "1" to "6", in this order. */
  ghost predicate IdsOneToSix(seeds: seq<Issue>) {
    && |seeds| == 6
    && (forall i :: 0 <= i < 6 ==> seeds[i].id == [['1', '2', '3', '4', '5', '6'][i]])
  }

  /** Every seed has a severity in 1..10, a report time equal to its
      creation time and before `loadTime`, and the seeds are listed newest
      first. */
  ghost predicate ReportedNewestFirst(seeds: seq<Issue>, loadTime: Time) {
    && (forall i :: 0 <= i < |seeds| ==> 1 <= seeds[i].severityScore <= 10)
    && (forall i :: 0 <= i < |seeds| ==> seeds[i].dateTime == seeds[i].createdAt < loadTime)
    && (forall i, j :: 0 <= i < j < |seeds| ==> seeds[j].createdAt < seeds[i].createdAt)
  }

  /** Every seed suggests three actions. */
  ghost predicate ThreeActionsEach(seeds: seq<Issue>) {
    forall i :: 0 <= i < |seeds| ==> |seeds[i].suggestedActions| == 3
  }

  /** Only the fifth seed is resolved, and only it carries a resolution time,
      which lies between its creation and `loadTime`. */
  ghost predicate OnlyFifthResolved(seeds: seq<Issue>, loadTime: Time) {
    && |seeds| == 6
    && (forall i :: 0 <= i < 6 ==> (seeds[i].status == Resolved <==> i == 4))
    && (forall i :: 0 <= i < 6 ==> (seeds[i].resolvedAt.Some? <==> i == 4))
    && seeds[4].createdAt < seeds[4].resolvedAt.value < loadTime
  }

  /** Whatever the texts, the seeds carry the ids "1" to "6", which are
      therefore pairwise distinct. */
  lemma SeedIds(x1: SeedText, x2: SeedText, x3: SeedText, x4: SeedText, x5: SeedText,
                x6: SeedText, loadTime: Time)
    ensures var seeds := Seeds(x1, x2, x3, x4, x5, x6, loadTime);
      && IdsOneToSix(seeds)
      && (forall i, j :: 0 <= i < j < 6 ==> seeds[i].id != seeds[j].id)
  {
  }

  /** Whatever the texts, the seeds are well formed and newest first. */
  lemma SeedsWellFormed(x1: SeedText, x2: SeedText, x3: SeedText, x4: SeedText, x5: SeedText,
                        x6: SeedText, loadTime: Time)
    ensures ReportedNewestFirst(Seeds(x1, x2, x3, x4, x5, x6, loadTime), loadTime)
  {
  }

  /** Whatever the texts, only seed "5" is resolved. */
  lemma SeedsOnlyFifthResolved(x1: SeedText, x2: SeedText, x3: SeedText, x4: SeedText,
                               x5: SeedText, x6: SeedText, loadTime: Time)
    ensures OnlyFifthResolved(Seeds(x1, x2, x3, x4, x5, x6, loadTime), loadTime)
  {
  }

  /** The seeds take their suggested actions from their texts. */
  lemma SeedsThreeActions(x1: SeedText, x2: SeedText, x3: SeedText, x4: SeedText, x5: SeedText,
                          x6: SeedText, loadTime: Time)
    requires |x1.actions| == 3 && |x2.actions| == 3 && |x3.actions| == 3
    requires |x4.actions| == 3 && |x5.actions| == 3 && |x6.actions| == 3
    ensures ThreeActionsEach(Seeds(x1, x2, x3, x4, x5, x6, loadTime))
  {
  }

  /** Every seed text suggests three actions. */
  lemma SeedTextsThreeActions()
    ensures |SeedTextAt(0).actions| == 3 && |SeedTextAt(1).actions| == 3 && |SeedTextAt(2).actions| == 3
    ensures |SeedTextAt(3).actions| == 3 && |SeedTextAt(4).actions| == 3 && |SeedTextAt(5).actions| == 3
  {
  }

  /** The seed issues: six, with the ids "1" to "6", well formed and newest
      first, three suggested actions each, only "5" resolved. */
  lemma MockIssuesFacts(loadTime: Time)
    ensures IdsOneToSix(MockIssues(loadTime))
    ensures ReportedNewestFirst(MockIssues(loadTime), loadTime)
    ensures ThreeActionsEach(MockIssues(loadTime))
    ensures OnlyFifthResolved(MockIssues(loadTime), loadTime)
  {
    var x1, x2, x3, x4, x5, x6 := SeedTextAt(0), SeedTextAt(1), SeedTextAt(2), SeedTextAt(3), SeedTextAt(4), SeedTextAt(5);
    SeedIds(x1, x2, x3, x4, x5, x6, loadTime);
    SeedsWellFormed(x1, x2, x3, x4, x5, x6, loadTime);
    SeedTextsThreeActions();
    SeedsThreeActions(x1, x2, x3, x4, x5, x6, loadTime);
    SeedsOnlyFifthResolved(x1, x2, x3, x4, x5, x6, loadTime);
  }

  /** Whatever the texts, the seeds are not what the classifier would
      produce: seed "3" reports a fire yet is stored as moderate, and seed "6"
      has severity 2, below the least score the classifier ever gives. */
  lemma SeedsAreNotClassifierOutputs(x1: SeedText, x2: SeedText, x3: SeedText, x4: SeedText,
                                     x5: SeedText, x6: SeedText, loadTime: Time)
    ensures var s3 := Seeds(x1, x2, x3, x4, x5, x6, loadTime)[2];
      && s3.incidentType == Some(Fire) && s3.priority == Moderate
      && AiProcessor.Classify(s3.description, s3.location, s3.incidentType).priority == High
    ensures var s6 := Seeds(x1, x2, x3, x4, x5, x6, loadTime)[5];
      && s6.severityScore == 2
      && AiProcessor.Classify(s6.description, s6.location, s6.incidentType).severityScore != 2
  {
    var seeds := Seeds(x1, x2, x3, x4, x5, x6, loadTime);
    assert seeds[2] == SeedIssue("3", Laboratory, Fire, x3, 5 * Hour, Moderate, 6, InProgress, loadTime);
    assert seeds[5] == SeedIssue("6", Playground, IncidentType.Other, x6, 72 * Hour, Low, 2, Pending, loadTime);
    AiProcessor.ForcedHigh(x3.description, Laboratory, Some(Fire));
    AiProcessor.ClassifyScores(x6.description, Playground, Some(IncidentType.Other));
  }

  /** `mockAdmin`: the administrator every successful login yields. */
  const MockAdmin: Admin := Admin(
    "admin-1", "admin@sentinelcampus.edu", "Dr. Sarah Mitchell", Management,
    None, Some("+1 (555) 123-4567"), 147, 12, 94)

  /** `locationLabels`; `other` reads "Other". */
  function LocationLabel(l: IncidentLocation): (r: string)
    ensures 1 <= |r| <= 12
  {
    match l
    case Classroom => "Classroom"
    case Hostel => "Hostel"
    case Library => "Library"
    case Cafeteria => "Cafeteria"
    case Laboratory => "Laboratory"
    case Washroom => "Washroom"
    case Parking => "Parking Area"
    case Playground => "Playground"
    case Other => "Other"
  }

  /** The label table agrees with the classifier's location names except for
      `other`, which the classifier calls "Campus". */
  lemma LocationLabelsAgreeWithNames(l: IncidentLocation)
    ensures l != IncidentLocation.Other ==> LocationLabel(l) == AiProcessor.LocationName(l)
    ensures LocationLabel(IncidentLocation.Other) == "Other"
    ensures AiProcessor.LocationName(IncidentLocation.Other) == "Campus"
  {
  }

  /** No two locations share a label. */
  lemma LocationLabelsDistinct(a: IncidentLocation, b: IncidentLocation)
    ensures LocationLabel(a) == LocationLabel(b) <==> a == b
  {
    if a != b {
      assert LocationLabel(a)[..2] != LocationLabel(b)[..2] || LocationLabel(a) != LocationLabel(b);
    }
  }

  /** `incidentTypeLabels`. */
  function IncidentTypeLabel(t: IncidentType): (r: string)
    ensures 1 <= |r| <= 24
  {
    match t
    case Medical => "Medical Emergency"
    case Harassment => "Harassment / Violence"
    case Fire => "Fire / Electrical Hazard"
    case Infrastructure => "Infrastructure Damage"
    case Suspicious => "Suspicious Activity"
    case MentalHealth => "Mental Health Concern"
    case Other => "Other"
  }

  /** No two incident types share a label. */
  lemma IncidentTypeLabelsDistinct(a: IncidentType, b: IncidentType)
    ensures IncidentTypeLabel(a) == IncidentTypeLabel(b) <==> a == b
  {
  }
}
