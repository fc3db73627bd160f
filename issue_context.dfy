/** The in-memory issue store: one mutable list of issues, seeded with the
    mock issues, with prepend, update-by-id and find-first. */
module IssueContext {
  import opened Wrappers
  import opened Types
  import MockData

  /** `a` and `b` are the same report: every field except the administrative
      ones (`status`, `resolvedAt`, `adminNotes`) agrees. */
  predicate SameReport(a: Issue, b: Issue) {
    && a.id == b.id && a.location == b.location && a.customLocation == b.customLocation
    && a.incidentType == b.incidentType && a.description == b.description
    && a.dateTime == b.dateTime && a.createdAt == b.createdAt
    && a.priority == b.priority && a.severityScore == b.severityScore
    && a.summary == b.summary && a.suggestedActions == b.suggestedActions
    && a.assignedTo == b.assignedTo
  }

  /** The notes an update leaves on an issue: `notes || old`, where an absent
      or empty note is falsy. */
  function KeptNotes(notes: Option<string>, previous: Option<string>): (r: Option<string>)
    ensures r == notes || r == previous
    ensures notes.Some? && notes.value != [] ==> r == notes
    ensures notes.None? || notes.value == [] ==> r == previous
  {
    if notes.Some? && notes.value != [] then notes else previous
  }

  /** One issue after `updateIssueStatus` matched it at time `now`. */
  function WithStatus(issue: Issue, status: IssueStatus, notes: Option<string>, now: Time): (r: Issue)
    ensures SameReport(issue, r)
    ensures r.status == status
    ensures r.adminNotes == KeptNotes(notes, issue.adminNotes)
    ensures status == Resolved ==> r.resolvedAt == Some(now)
    ensures status != Resolved ==> r.resolvedAt == issue.resolvedAt
  {
    issue.(status := status,
           adminNotes := KeptNotes(notes, issue.adminNotes),
           resolvedAt := if status == Resolved then Some(now) else issue.resolvedAt)
  }

  /** The list after `updateIssueStatus(id, status, notes)` at time `now`:
      every issue with the id is updated, in place, and every other issue is
      kept. */
  function UpdateAll(issues: seq<Issue>, id: string, status: IssueStatus, notes: Option<string>,
                     now: Time): (r: seq<Issue>)
    ensures |r| == |issues|
    ensures forall i :: 0 <= i < |issues| && issues[i].id == id ==>
              r[i] == WithStatus(issues[i], status, notes, now)
    ensures forall i :: 0 <= i < |issues| && issues[i].id != id ==> r[i] == issues[i]
  {
    if issues == [] then []
    else
      var head := if issues[0].id == id then WithStatus(issues[0], status, notes, now) else issues[0];
      [head] + UpdateAll(issues[1..], id, status, notes, now)
  }

  /** `issues.find(issue => issue.id === id)`: the first issue with the id. */
  function FindById(issues: seq<Issue>, id: string): (r: Option<Issue>)
    ensures r.None? <==> forall i :: 0 <= i < |issues| ==> issues[i].id != id
    ensures r.Some? ==> exists i :: 0 <= i < |issues| && issues[i] == r.value && issues[i].id == id
                                    && forall j :: 0 <= j < i ==> issues[j].id != id
  {
    if issues == [] then None
    else if issues[0].id == id then Some(issues[0])
    else
      var r := FindById(issues[1..], id);
      assert forall i :: 1 <= i < |issues| ==> issues[i] == issues[1..][i - 1];
      r
  }

  /** The store of `IssueProvider`. */
  class IssueProvider {
    var issues: seq<Issue>

    /** The store starts with the seed issues. */
    constructor (loadTime: Time)
      ensures issues == MockData.MockIssues(loadTime)
    {
      issues := MockData.MockIssues(loadTime);
    }

    /** `addIssue`: the new issue goes in front of the old ones, and a lookup
        of its id then finds it. */
    method AddIssue(issue: Issue)
      modifies this
      ensures issues == [issue] + old(issues)
      ensures GetIssueById(issue.id) == Some(issue)
    {
      issues := [issue] + issues;
      FindAfterPrepend(old(issues), issue);
    }

    /** `updateIssueStatus`: the list becomes its update at time `now`. */
    method UpdateIssueStatus(id: string, status: IssueStatus, notes: Option<string>, now: Time)
      modifies this
      ensures issues == UpdateAll(old(issues), id, status, notes, now)
    {
      issues := UpdateAll(issues, id, status, notes, now);
    }

    /** `getIssueById`: the first stored issue with the id. */
    function GetIssueById(id: string): (r: Option<Issue>)
      reads this
      ensures r.Some? ==> r.value.id == id && r.value in issues
      ensures r.None? <==> forall i :: 0 <= i < |issues| ==> issues[i].id != id
    {
      FindById(issues, id)
    }
  }

  /** Looking up the id of the issue just put in front finds that issue,
      even when an older issue has the same id. */
  lemma FindAfterPrepend(issues: seq<Issue>, x: Issue)
    ensures FindById([x] + issues, x.id) == Some(x)
  {
  }

  /** Looking up another id after a prepend finds what it found before. */
  lemma FindOtherAfterPrepend(issues: seq<Issue>, x: Issue, id: string)
    requires id != x.id
    ensures FindById([x] + issues, id) == FindById(issues, id)
  {
    assert ([x] + issues)[1..] == issues;
  }

  /** An update naming an id that no issue has leaves the list unchanged. */
  lemma UpdateUnknownId(issues: seq<Issue>, id: string, status: IssueStatus,
                        notes: Option<string>, now: Time)
    requires forall i :: 0 <= i < |issues| ==> issues[i].id != id
    ensures UpdateAll(issues, id, status, notes, now) == issues
  {
  }

  /** An update keeps the order of the reports and every field but the three
      administrative ones. */
  lemma UpdateKeepsReports(issues: seq<Issue>, id: string, status: IssueStatus,
                           notes: Option<string>, now: Time)
    ensures var r := UpdateAll(issues, id, status, notes, now);
      forall i :: 0 <= i < |issues| ==> SameReport(issues[i], r[i])
  {
    var r := UpdateAll(issues, id, status, notes, now);
    forall i | 0 <= i < |issues| ensures SameReport(issues[i], r[i]) {
      if issues[i].id == id {
        assert SameReport(issues[i], WithStatus(issues[i], status, notes, now));
      } else {
        assert r[i] == issues[i];
      }
    }
  }

  /** A resolution time, once set, survives every later update. */
  lemma ResolvedAtNeverCleared(issue: Issue, status: IssueStatus, notes: Option<string>, now: Time)
    requires issue.resolvedAt.Some?
    ensures WithStatus(issue, status, notes, now).resolvedAt.Some?
  {
  }

  /** Repeating an update changes nothing more. */
  lemma UpdateIdempotent(issues: seq<Issue>, id: string, status: IssueStatus,
                         notes: Option<string>, now: Time)
    ensures var once := UpdateAll(issues, id, status, notes, now);
      UpdateAll(once, id, status, notes, now) == once
  {
    var once := UpdateAll(issues, id, status, notes, now);
    var twice := UpdateAll(once, id, status, notes, now);
    forall i | 0 <= i < |issues| ensures twice[i] == once[i] {
      if issues[i].id == id {
        assert once[i].id == id;
        assert twice[i] == WithStatus(once[i], status, notes, now);
      }
    }
  }

  /** After an update, a lookup of the updated id finds the update of what it
      found before, and a lookup of any other id finds what it found before:
      the update reaches every issue with the id, the lookup only the first. */
  lemma {:induction false} FindAfterUpdate(issues: seq<Issue>, id: string, status: IssueStatus,
                                           notes: Option<string>, now: Time, key: string)
    ensures var found := FindById(UpdateAll(issues, id, status, notes, now), key);
      found == (match FindById(issues, key)
                case None => None
                case Some(x) => if key == id then Some(WithStatus(x, status, notes, now)) else Some(x))
    decreases |issues|
  {
    if issues != [] {
      var r := UpdateAll(issues, id, status, notes, now);
      assert r[1..] == UpdateAll(issues[1..], id, status, notes, now);
      if issues[0].id != key {
        assert r[0].id != key;
        FindAfterUpdate(issues[1..], id, status, notes, now, key);
      }
    }
  }
}
