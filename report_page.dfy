/** The report form: its option tables, the guard on submission and the
    record a submission adds to the store. */
module ReportPage {
  import opened Wrappers
  import opened Types
  import Text
  import AiProcessor
  import MockData
  import IssueContext

  /** One entry of a selection list: the stored value and the caption shown. */
  datatype SelectOption<T> = SelectOption(value: T, caption: string)

  /** `locations`, in display order. */
  function LocationOptions(): (r: seq<SelectOption<IncidentLocation>>)
    ensures |r| == |AllLocations|
    ensures forall i :: 0 <= i < |r| ==> r[i].caption != []
  {
    [SelectOption(Classroom, "Classroom"), SelectOption(Hostel, "Hostel"),
     SelectOption(Library, "Library"), SelectOption(Cafeteria, "Cafeteria"),
     SelectOption(Laboratory, "Laboratory"), SelectOption(Washroom, "Washroom"),
     SelectOption(Parking, "Parking Area"), SelectOption(Playground, "Playground"),
     SelectOption(IncidentLocation.Other, "Other")]
  }

  /** `incidentTypes`, in display order. */
  function IncidentTypeOptions(): (r: seq<SelectOption<IncidentType>>)
    ensures |r| == |AllIncidentTypes|
    ensures forall i :: 0 <= i < |r| ==> r[i].caption != []
  {
    [SelectOption(Medical, "Medical Emergency"), SelectOption(Harassment, "Harassment / Violence"),
     SelectOption(Fire, "Fire / Electrical Hazard"),
     SelectOption(Infrastructure, "Infrastructure Damage"),
     SelectOption(Suspicious, "Suspicious Activity"),
     SelectOption(MentalHealth, "Mental Health Concern"), SelectOption(IncidentType.Other, "Other")]
  }

  /** The values of a selection list, in order. */
  function Values<T>(options: seq<SelectOption<T>>): (r: seq<T>)
    ensures |r| == |options| && forall i :: 0 <= i < |options| ==> r[i] == options[i].value
  {
    seq(|options|, i requires 0 <= i < |options| => options[i].value)
  }

  /** The location list offers the nine locations in the order of the
      location type, so each of them exactly once. */
  lemma LocationOptionsComplete()
    ensures Values(LocationOptions()) == AllLocations
    ensures |LocationOptions()| == 9 && ListsEachOnce(Values(LocationOptions()))
  {
    var options := LocationOptions();
    assert options[0].value == Classroom && options[8].value == IncidentLocation.Other;
    assert Values(options) == AllLocations by {
      forall i | 0 <= i < 9 ensures Values(options)[i] == AllLocations[i] {
      }
    }
    AllLocationsComplete();
  }

  /** Every location is captioned as in the shared label table. */
  lemma LocationOptionsLabelled(i: nat)
    requires i < |LocationOptions()|
    ensures LocationOptions()[i].caption == MockData.LocationLabel(LocationOptions()[i].value)
  {
  }

  /** The incident type list offers the seven types in the order of the
      incident type, so each of them exactly once. */
  lemma IncidentTypeOptionsComplete()
    ensures Values(IncidentTypeOptions()) == AllIncidentTypes
    ensures |IncidentTypeOptions()| == 7 && ListsEachOnce(Values(IncidentTypeOptions()))
  {
    var options := IncidentTypeOptions();
    assert Values(options) == AllIncidentTypes by {
      forall i | 0 <= i < 7 ensures Values(options)[i] == AllIncidentTypes[i] {
      }
    }
    AllIncidentTypesComplete();
  }

  /** Every incident type is captioned as in the shared label table. */
  lemma IncidentTypeOptionsLabelled(i: nat)
    requires i < |IncidentTypeOptions()|
    ensures IncidentTypeOptions()[i].caption == MockData.IncidentTypeLabel(IncidentTypeOptions()[i].value)
  {
  }

  /** The fields of the form. An unselected location or incident type (the
      empty selection) is `None`. */
  datatype ReportForm = ReportForm(
    location: Option<IncidentLocation>,
    customLocation: string,
    incidentType: Option<IncidentType>,
    description: string,
    date: string,
    time: string)

  /** The form may be submitted: a location is selected and the description,
      date and time are not empty. The incident type and the custom location
      may be left empty. */
  predicate Complete(form: ReportForm)
    ensures Complete(form) ==> form.location.Some? && form.description != []
  {
    form.location.Some? && |form.description| > 0 && |form.date| > 0 && |form.time| > 0
  }

  /** The submit button is disabled exactly when the form is incomplete or a
      submission is under way. */
  function SubmitDisabled(form: ReportForm, isSubmitting: bool): (r: bool)
    ensures r <==> !Complete(form) || isSubmitting
    ensures !r ==> form.location.Some? && form.description != []
  {
    form.location.None? || form.description == [] || form.date == [] || form.time == [] || isSubmitting
  }

  /** `issue-${Date.now()}`: the id of a report submitted at `now`. */
  function IssueId(now: Time): (r: string)
    ensures |r| > 6 && r[..6] == "issue-" && r[6..] == Text.IntToString(now)
  {
    "issue-" + Text.IntToString(now)
  }

  /** Reports submitted at different times get different ids. */
  lemma IssueIdsDistinct(a: Time, b: Time)
    requires a != b
    ensures IssueId(a) != IssueId(b)
  {
    if IssueId(a) == IssueId(b) {
      assert IssueId(a)[6..] == IssueId(b)[6..];
      Text.IntToStringInjective(a, b);
    }
  }

  /** `newIssue`: the record built from a complete form at time `now`, with
      the report time `dateTime` the form's date and time denote and the
      classifier's `analysis`. It is pending, keeps the custom location only
      for the location `other`, and sets no administrative field. */
  function NewIssue(form: ReportForm, dateTime: Time, now: Time, analysis: AiProcessor.Analysis): (r: Issue)
    requires form.location.Some?
    ensures r.id == IssueId(now) && r.location == form.location.value
    ensures r.customLocation == (if form.location.value == IncidentLocation.Other
                                 then Some(form.customLocation) else None)
    ensures r.incidentType == form.incidentType && r.description == form.description
    ensures r.dateTime == dateTime && r.createdAt == now
    ensures r.priority == analysis.priority && r.severityScore == analysis.severityScore
    ensures r.summary == analysis.summary && r.suggestedActions == analysis.suggestedActions
    ensures r.status == Pending
    ensures r.resolvedAt == None && r.assignedTo == None && r.adminNotes == None
  {
    var location := form.location.value;
    Issue(IssueId(now), location,
          if location == IncidentLocation.Other then Some(form.customLocation) else None,
          form.incidentType, form.description, dateTime, now,
          analysis.priority, analysis.severityScore, analysis.summary, analysis.suggestedActions,
          Pending, None, None, None)
  }

  /** The record a complete form yields: the classifier's analysis of the
      form's own description, location and type. */
  function Submitted(form: ReportForm, dateTime: Time, now: Time): (r: Issue)
    requires form.location.Some?
    ensures r.status == Pending && r.description == form.description
    ensures 1 <= r.severityScore <= 10 && 1 <= |r.suggestedActions| <= 4
  {
    NewIssue(form, dateTime, now, AiProcessor.Classify(form.description, form.location.value, form.incidentType))
  }

  /** A submitted medical or fire report is stored as high priority, with the
      dispatch action first, whatever its description; the seed issue "3"
      shows that the store itself does not rely on this. */
  lemma ImmediateReportsStoredHigh(form: ReportForm, dateTime: Time, now: Time)
    requires form.location.Some?
    requires form.incidentType == Some(Medical) || form.incidentType == Some(Fire)
    ensures Submitted(form, dateTime, now).priority == High
    ensures Submitted(form, dateTime, now).suggestedActions[0] == AiProcessor.DispatchAction
  {
    AiProcessor.ForcedHigh(form.description, form.location.value, form.incidentType);
  }

  /** The work of a submission: classify the form with the imperative
      classifier, build the record and put it in front of the store. */
  method AddSubmitted(store: IssueContext.IssueProvider, form: ReportForm, dateTime: Time, now: Time)
    requires form.location.Some?
    modifies store
    ensures store.issues == [Submitted(form, dateTime, now)] + old(store.issues)
  {
    var analysis := AiProcessor.ProcessReport(form.description, form.location.value, form.incidentType);
    var issue := NewIssue(form, dateTime, now, analysis);
    store.AddIssue(issue);
  }

  /** The state of the report page. */
  class ReportPage {
    var isSubmitting: bool
    var isSubmitted: bool

    /** A fresh form: not submitting, not submitted. */
    constructor ()
      ensures !isSubmitting && !isSubmitted
    {
      isSubmitting := false;
      isSubmitted := false;
    }

    /** `handleSubmit` at time `now`: an incomplete form changes nothing; a
        complete one adds exactly the record built from it in front of the
        store and marks the page submitted. */
    method HandleSubmit(store: IssueContext.IssueProvider, form: ReportForm, dateTime: Time, now: Time)
      modifies this, store
      ensures !Complete(form) ==>
                store.issues == old(store.issues)
                && isSubmitting == old(isSubmitting) && isSubmitted == old(isSubmitted)
      ensures Complete(form) ==>
                store.issues == [Submitted(form, dateTime, now)] + old(store.issues)
                && !isSubmitting && isSubmitted
    {
      if !Complete(form) {
        return;
      }
      isSubmitting := true;
      AddSubmitted(store, form, dateTime, now);
      isSubmitting := false;
      isSubmitted := true;
    }
  }
}
