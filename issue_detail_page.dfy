/** The issue detail page: a status and notes form over one stored issue,
    saving it into the store, accepting the suggested actions as notes, and
    the colour band of the severity score. */
module IssueDetailPage {
  import opened Wrappers
  import opened Types
  import Text
  import AiProcessor
  import IssueContext
  import AuthContext

  /** The two fields of the form. */
  datatype DetailForm = DetailForm(status: IssueStatus, notes: string)

  /** The form for the looked-up issue: its status and its notes, where a
      missing issue gives `pending` and missing notes give the empty text. */
  function InitialForm(issue: Option<Issue>): (r: DetailForm)
    ensures issue.None? ==> r == DetailForm(Pending, "")
    ensures issue.Some? ==> r.status == issue.value.status
    ensures issue.Some? && issue.value.adminNotes.Some? ==> r.notes == issue.value.adminNotes.value
    ensures issue.Some? && issue.value.adminNotes.None? ==> r.notes == ""
  {
    match issue
    case None => DetailForm(Pending, "")
    case Some(x) => DetailForm(x.status, x.adminNotes.GetOr(""))
  }

  /** Saving the form exactly as it was initialised gives back the issue,
      except that saving a resolved issue moves its resolution time to the
      moment of the save. */
  lemma UntouchedSave(issue: Issue, now: Time)
    ensures var f := InitialForm(Some(issue));
      var r := IssueContext.WithStatus(issue, f.status, Some(f.notes), now);
      && r.status == issue.status && r.adminNotes == issue.adminNotes
      && (issue.status != Resolved ==> r == issue)
      && (issue.status == Resolved ==> r == issue.(resolvedAt := Some(now)))
  {
    var f := InitialForm(Some(issue));
    var r := IssueContext.WithStatus(issue, f.status, Some(f.notes), now);
    assert r.adminNotes == issue.adminNotes by {
      if issue.adminNotes.Some? && issue.adminNotes.value == [] {
        assert f.notes == [];
      }
    }
  }

  /** A save with an empty notes box keeps the notes of every issue it
      updates. */
  lemma EmptyNotesKept(issues: seq<Issue>, id: string, status: IssueStatus, now: Time)
    ensures var r := IssueContext.UpdateAll(issues, id, status, Some(""), now);
      forall i :: 0 <= i < |issues| ==> r[i].adminNotes == issues[i].adminNotes
  {
    var r := IssueContext.UpdateAll(issues, id, status, Some(""), now);
    forall i | 0 <= i < |issues| ensures r[i].adminNotes == issues[i].adminNotes {
      if issues[i].id == id {
        assert r[i] == IssueContext.WithStatus(issues[i], status, Some(""), now);
      }
    }
  }

  /** The action list numbered from `first`: line `i` is the number
      `first + i`, a full stop, a space and action `i`. */
  function NumberedLines(actions: seq<string>, first: nat): (r: seq<string>)
    ensures |r| == |actions|
    ensures forall i :: 0 <= i < |actions| ==> r[i] == Text.NatToString(first + i) + ". " + actions[i]
  {
    if actions == [] then []
    else [Text.NatToString(first) + ". " + actions[0]] + NumberedLines(actions[1..], first + 1)
  }

  /** The first line of the accepted-suggestions note. */
  function AcceptedHeading(): (r: string)
    ensures |r| == 30 && forall i :: 0 <= i < |r| ==> r[i] != '\n'
  {
    "AI-suggested" + " actions" + " accepted:"
  }

  /** The note accepting the suggested actions: the heading, a line break and
      the numbered actions, one per line. It is never empty, so saving it
      always replaces the stored notes. */
  function AcceptedNotes(actions: seq<string>): (r: string)
    ensures |r| > |AcceptedHeading()| && r[..|AcceptedHeading()|] == AcceptedHeading()
    ensures r[|AcceptedHeading()|] == '\n'
  {
    AcceptedHeading() + "\n" + Text.Join(NumberedLines(actions, 1), "\n")
  }

  /** A numbered line holds no line break when its action holds none. */
  lemma NumberedLineSingle(first: nat, action: string)
    requires forall i :: 0 <= i < |action| ==> action[i] != '\n'
    ensures var line := Text.NatToString(first) + ". " + action;
      forall i :: 0 <= i < |line| ==> line[i] != '\n'
  {
    var digits := Text.NatToString(first);
    var line := digits + ". " + action;
    forall i | 0 <= i < |line| ensures line[i] != '\n' {
      if i < |digits| {
        assert line[i] == digits[i] && Text.IsDigit(digits[i]);
      } else if i >= |digits| + 2 {
        assert line[i] == action[i - |digits| - 2];
      }
    }
  }

  /** Splitting the note at its line breaks gives the heading and then the
      numbered actions, or an empty last line when there are no actions,
      provided no action holds a line break itself. */
  lemma AcceptedNotesLines(actions: seq<string>)
    requires forall j, i :: 0 <= j < |actions| && 0 <= i < |actions[j]| ==> actions[j][i] != '\n'
    ensures Text.SplitOn(AcceptedNotes(actions), '\n')
         == [AcceptedHeading()] + (if actions == [] then [""] else NumberedLines(actions, 1))
  {
    var heading := AcceptedHeading();
    var lines := NumberedLines(actions, 1);
    var parts := [heading] + (if actions == [] then [""] else lines);
    forall j, i | 0 <= j < |parts| && 0 <= i < |parts[j]| ensures parts[j][i] != '\n' {
      if j > 0 && actions != [] {
        assert parts[j] == lines[j - 1];
        NumberedLineSingle(j, actions[j - 1]);
      }
    }
    assert parts[1..] == (if actions == [] then [""] else lines);
    assert Text.Join(parts, "\n") == AcceptedNotes(actions);
    Text.SplitOnJoin(parts, '\n');
  }

  /** The number in front of line `i` of the note reads back as `i + 1`: it
      runs up to the first full stop of the line. */
  lemma LineNumberReadsBack(actions: seq<string>, i: nat)
    requires i < |actions|
    ensures var line := NumberedLines(actions, 1)[i];
      var k := Text.IndexOf(line, '.');
      && k == |Text.NatToString(i + 1)| && (forall j :: 0 <= j < k ==> Text.IsDigit(line[j]))
      && Text.ParseNat(line[..k]) == i + 1
  {
    var digits := Text.NatToString(i + 1);
    var line := NumberedLines(actions, 1)[i];
    assert line == digits + ['.'] + (" " + actions[i]);
    forall j | 0 <= j < |digits| ensures digits[j] != '.' {
      assert Text.IsDigit(digits[j]);
    }
    Text.IndexOfAfter(digits, '.', " " + actions[i]);
    assert line[..|digits|] == digits;
    Text.ParseNatToString(i + 1);
  }

  /** The colour of the severity indicator. */
  datatype Band = Destructive | Warning | Success

  /** Scores of 7 and above are shown as destructive, scores of 4 to 6 as
      a warning, and lower scores as success. */
  function SeverityBand(score: int): (b: Band)
    ensures b == Destructive <==> score >= 7
    ensures b == Warning <==> 4 <= score < 7
    ensures b == Success <==> score < 4
  {
    if score >= 7 then Destructive else if score >= 4 then Warning else Success
  }

  /** The bands against the priority rules, in terms of the keyword counts:
      the top band forces high priority, and the bottom band is exactly the
      low rule. */
  lemma BandOfDecision(h: nat, m: nat, t: Option<IncidentType>)
    ensures var s := AiProcessor.SeverityScore(h, m, t);
      var p := AiProcessor.DecidePriority(s, h, m, t);
      && (SeverityBand(s) == Destructive ==> p == High)
      && (SeverityBand(s) == Success <==> p == Low)
  {
    AiProcessor.DecideLowIff(h, m, t);
  }

  /** For a classified report the bands agree with the priority: the top band
      only holds high reports, and the bottom band holds the low reports
      and nothing else. */
  lemma BandOfClassified(description: string, location: IncidentLocation, t: Option<IncidentType>)
    ensures var a := AiProcessor.Classify(description, location, t);
      && (SeverityBand(a.severityScore) == Destructive ==> a.priority == High)
      && (SeverityBand(a.severityScore) == Success <==> a.priority == Low)
  {
    AiProcessor.ClassifyScores(description, location, t);
    BandOfDecision(AiProcessor.HighMatches(description), AiProcessor.ModMatches(description), t);
  }

  /** The state of the page for the issue named by the route. */
  class IssueDetail {
    const id: string
    var status: IssueStatus
    var notes: string
    var isSaving: bool

    /** The page for the route parameter `routeId` (the empty id when it is
        missing), with the form initialised from the store. */
    constructor (store: IssueContext.IssueProvider, routeId: Option<string>)
      ensures id == routeId.GetOr("")
      ensures DetailForm(status, notes) == InitialForm(store.GetIssueById(id))
      ensures !isSaving
    {
      id := routeId.GetOr("");
      var form := InitialForm(store.GetIssueById(routeId.GetOr("")));
      status := form.status;
      notes := form.notes;
      isSaving := false;
    }

    /** The form and its buttons are shown: an administrator is logged in and
        the store has an issue with the id. */
    predicate Shown(store: IssueContext.IssueProvider, auth: AuthContext.AuthProvider)
      reads store, auth
    {
      auth.IsAuthenticated() && store.GetIssueById(id).Some?
    }

    /** `handleSave` at time `now`: when the form is shown, the store applies
        the form's status and notes to the issue's id; otherwise nothing is
        reachable and nothing changes. */
    method HandleSave(store: IssueContext.IssueProvider, auth: AuthContext.AuthProvider, now: Time)
      returns (saved: bool)
      modifies this, store
      ensures saved <==> old(Shown(store, auth))
      ensures saved ==> store.issues == IssueContext.UpdateAll(old(store.issues), id, status, Some(notes), now)
      ensures !saved ==> store.issues == old(store.issues)
      ensures status == old(status) && notes == old(notes)
      ensures saved ==> !isSaving
      ensures !saved ==> isSaving == old(isSaving)
    {
      if !auth.IsAuthenticated() {
        return false;
      }
      var issue := store.GetIssueById(id);
      if issue.None? {
        return false;
      }
      isSaving := true;
      store.UpdateIssueStatus(issue.value.id, status, Some(notes), now);
      isSaving := false;
      saved := true;
    }

    /** `handleAcceptSuggestions`: when the form is shown, its status becomes
        `in_progress` and its notes the accepted-suggestions note for the
        issue's actions; the store is not touched until a save. */
    method HandleAcceptSuggestions(store: IssueContext.IssueProvider, auth: AuthContext.AuthProvider)
      returns (accepted: bool)
      modifies this
      ensures accepted <==> Shown(store, auth)
      ensures accepted ==> status == InProgress
                           && notes == AcceptedNotes(store.GetIssueById(id).value.suggestedActions)
      ensures !accepted ==> status == old(status) && notes == old(notes)
      ensures isSaving == old(isSaving)
    {
      if !auth.IsAuthenticated() {
        return false;
      }
      var issue := store.GetIssueById(id);
      if issue.None? {
        return false;
      }
      status := InProgress;
      notes := AcceptedNotes(issue.value.suggestedActions);
      accepted := true;
    }
  }

  /** Saving after accepting the suggestions marks every issue with the id
      in progress and gives it the accepted-suggestions note. */
  lemma AcceptThenSave(issues: seq<Issue>, id: string, actions: seq<string>, now: Time)
    ensures var r := IssueContext.UpdateAll(issues, id, InProgress, Some(AcceptedNotes(actions)), now);
      forall i :: 0 <= i < |issues| && issues[i].id == id ==>
        r[i].status == InProgress && r[i].adminNotes == Some(AcceptedNotes(actions))
        && r[i].resolvedAt == issues[i].resolvedAt
  {
  }
}
