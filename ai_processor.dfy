/** The rule-based report classifier: from a free-text description, a
    location and an optional incident type it derives a priority, a
    severity score, a summary and a list of suggested actions. */
module AiProcessor {
  import opened Wrappers
  import opened Text
  import opened Types

  /** Words whose presence signals an urgent incident. */
  const HighUrgencyKeywords: seq<string> := [
    "unconscious", "bleeding", "fire", "violence", "attack", "emergency",
    "collapse", "injured", "threat", "assault", "burning", "smoke",
    "unresponsive", "help", "danger", "weapon", "fight"]

  /** Words whose presence signals an incident of moderate urgency. */
  const ModerateUrgencyKeywords: seq<string> := [
    "suspicious", "damage", "broken", "leak", "unsafe", "concern",
    "harassment", "threat", "following", "vandalism", "smell", "noise"]

  /** The four derived fields of an issue. */
  datatype Analysis = Analysis(
    priority: Priority,
    severityScore: int,
    summary: string,
    suggestedActions: seq<string>)

  function Min(a: int, b: int): int { if a <= b then a else b }

  function Max(a: int, b: int): int { if a >= b then a else b }

  // ------------------------------------------------------- keyword counts

  /** `keywords.filter(kw => text.includes(kw)).length`: how many entries of
      the list occur in the text, each counted once however often it occurs. */
  function CountMatches(keywords: seq<string>, text: string): (n: nat)
    ensures n <= |keywords|
    ensures n == 0 <==> forall i :: 0 <= i < |keywords| ==> !Contains(text, keywords[i])
  {
    if keywords == [] then 0
    else (if Contains(text, keywords[0]) then 1 else 0) + CountMatches(keywords[1..], text)
  }

  predicate Distinct(s: seq<string>) {
    forall i, j :: 0 <= i < j < |s| ==> s[i] != s[j]
  }

  /** Neither keyword list repeats an entry ("threat" is in both lists, once each). */
  lemma KeywordListsDistinct()
    ensures Distinct(HighUrgencyKeywords) && Distinct(ModerateUrgencyKeywords)
    ensures HighUrgencyKeywords[8] == "threat" && ModerateUrgencyKeywords[7] == "threat"
  {
  }

  /** The distinct keywords of the list that occur in the text. */
  function PresentKeywords(keywords: seq<string>, text: string): set<string> {
    set k | k in keywords && Contains(text, k)
  }

  /** For a list without repetitions the count is the number of distinct
      keywords present. */
  lemma {:induction false} CountIsPresentKeywords(keywords: seq<string>, text: string)
    requires Distinct(keywords)
    ensures CountMatches(keywords, text) == |PresentKeywords(keywords, text)|
  {
    if keywords != [] {
      var k, rest := keywords[0], keywords[1..];
      assert Distinct(rest);
      CountIsPresentKeywords(rest, text);
      assert k !in rest;
      var here := if Contains(text, k) then {k} else {};
      assert PresentKeywords(keywords, text) == here + PresentKeywords(rest, text);
      assert k !in PresentKeywords(rest, text);
    }
  }

  /** A keyword that is present adds one to the count. */
  lemma {:induction false} PresentCountsOnce(keywords: seq<string>, text: string, i: int)
    requires 0 <= i < |keywords| && Contains(text, keywords[i])
    ensures CountMatches(keywords, text) >= 1
  {
  }

  /** Two different entries that are both present count two. */
  lemma {:induction false} TwoPresentCountTwo(keywords: seq<string>, text: string, i: int, j: int)
    requires 0 <= i < j < |keywords|
    requires Contains(text, keywords[i]) && Contains(text, keywords[j])
    ensures CountMatches(keywords, text) >= 2
  {
    if i == 0 {
      assert keywords[1..][j - 1] == keywords[j];
      PresentCountsOnce(keywords[1..], text, j - 1);
    } else {
      assert keywords[1..][i - 1] == keywords[i] && keywords[1..][j - 1] == keywords[j];
      TwoPresentCountTwo(keywords[1..], text, i - 1, j - 1);
    }
  }

  /** `highMatches`: how many high-urgency keywords occur in the lower-cased
      description. */
  function HighMatches(description: string): (n: nat)
    ensures n <= |HighUrgencyKeywords|
    ensures n == |PresentKeywords(HighUrgencyKeywords, ToLower(description))|
  {
    KeywordListsDistinct();
    CountIsPresentKeywords(HighUrgencyKeywords, ToLower(description));
    CountMatches(HighUrgencyKeywords, ToLower(description))
  }

  /** `moderateMatches`: how many moderate-urgency keywords occur in the
      lower-cased description. */
  function ModMatches(description: string): (n: nat)
    ensures n <= |ModerateUrgencyKeywords|
    ensures n == |PresentKeywords(ModerateUrgencyKeywords, ToLower(description))|
  {
    KeywordListsDistinct();
    CountIsPresentKeywords(ModerateUrgencyKeywords, ToLower(description));
    CountMatches(ModerateUrgencyKeywords, ToLower(description))
  }

  // ------------------------------------------------- severity and priority

  /** What the incident type adds to the base score of 3. */
  function TypeBonus(t: Option<IncidentType>): (b: nat)
    ensures b <= 3
    ensures b == 0 <==> t == None || t == Some(MentalHealth) || t == Some(IncidentType.Other)
    ensures IsImmediateType(t) ==> b == 3
  {
    match t
    case Some(Medical) => 3
    case Some(Fire) => 3
    case Some(Harassment) => 3
    case Some(Suspicious) => 1
    case Some(Infrastructure) => 1
    case _ => 0
  }

  /** The score before normalisation. */
  function RawSeverity(highMatches: nat, modMatches: nat, t: Option<IncidentType>): (r: int)
    ensures r >= 3
    ensures r == 3 <==> highMatches == 0 && modMatches == 0 && TypeBonus(t) == 0
    ensures highMatches >= 2 ==> r >= 7
  {
    3 + TypeBonus(t) + 2 * highMatches + modMatches
  }

  /** `Math.min(10, Math.max(1, raw))`. The raw score is never below 3, so
      only the upper bound of the clamp ever takes effect. */
  function SeverityScore(highMatches: nat, modMatches: nat, t: Option<IncidentType>): (s: int)
    ensures 3 <= s <= 10
    ensures s == if RawSeverity(highMatches, modMatches, t) > 10 then 10
                 else RawSeverity(highMatches, modMatches, t)
  {
    Min(10, Max(1, RawSeverity(highMatches, modMatches, t)))
  }

  predicate IsImmediateType(t: Option<IncidentType>) {
    t == Some(Medical) || t == Some(Fire)
  }

  /** The three-way decision; the first rule that matches wins. */
  function DecidePriority(severity: int, highMatches: nat, modMatches: nat, t: Option<IncidentType>): (p: Priority)
    ensures severity >= 7 ==> p == High
    ensures p == Low ==> severity < 4 && highMatches < 2 && modMatches < 2 && !IsImmediateType(t)
  {
    if severity >= 7 || highMatches >= 2 || IsImmediateType(t) then High
    else if severity >= 4 || modMatches >= 2 || t == Some(Harassment) || t == Some(Suspicious) then Moderate
    else Low
  }

  // --------------------------------------------------------------- names

  /** `getLocationName`; `other` is called "Campus". */
  function LocationName(l: IncidentLocation): (r: string)
    ensures 1 <= |r| <= 12
  {
    match l
    case Classroom => "Classroom"
    case Hostel => "Hostel"
    case Library => "Library"
    case Cafeteria => "Cafeteria"
    case Laboratory => "Laboratory"
    case Washroom => "Washroom"
    case Parking => "Parking Area"
    case Playground => "Playground"
    case Other => "Campus"
  }

  /** `getIncidentTypeName`. */
  function IncidentTypeName(t: IncidentType): (r: string)
    ensures 1 <= |r| <= 22
    ensures IsLower(r[0])
  {
    match t
    case Medical => "medical emergency"
    case Harassment => "harassment incident"
    case Fire => "fire/electrical hazard"
    case Infrastructure => "infrastructure issue"
    case Suspicious => "suspicious activity"
    case MentalHealth => "mental health concern"
    case Other => "incident"
  }

  /** The type's name, or "incident" when no type was given. */
  function TypeName(t: Option<IncidentType>): (r: string)
    ensures 1 <= |r| <= 22
    ensures IsLower(r[0])
  {
    match t
    case Some(x) => IncidentTypeName(x)
    case None => "incident"
  }

  // ------------------------------------------------------------- summary

  /** `xs.filter(s => s.trim().length > 0)`: the pieces that are not all
      white space, in order. */
  function NonBlank(xs: seq<string>): (r: seq<string>)
    ensures |r| <= |xs|
    ensures forall i :: 0 <= i < |r| ==> !AllSpace(r[i])
    ensures forall x :: x in r <==> x in xs && !AllSpace(x)
    ensures r == [] <==> forall i :: 0 <= i < |xs| ==> AllSpace(xs[i])
    ensures |xs| == 1 ==> r == if AllSpace(xs[0]) then [] else xs
  {
    if xs == [] then []
    else
      var tail := xs[1..];
      var rest := NonBlank(tail);
      assert forall x :: x in xs <==> x == xs[0] || x in tail;
      assert forall i :: 0 < i < |xs| ==> tail[i - 1] == xs[i];
      assert |xs| == 1 ==> rest == [];
      if Trim(xs[0]) != [] then
        var r := [xs[0]] + rest;
        assert forall i :: 0 < i < |r| ==> r[i] == rest[i - 1];
        assert forall x :: x in r <==> x == xs[0] || x in rest;
        r
      else rest
  }

  /** The pieces `filter` keeps are the non-blank pieces in their order:
      filtering distributes over concatenation. */
  lemma {:induction false} NonBlankAppend(a: seq<string>, b: seq<string>)
    ensures NonBlank(a + b) == NonBlank(a) + NonBlank(b)
    decreases |a|
  {
    if a == [] {
      assert a + b == b;
    } else {
      assert (a + b)[0] == a[0] && (a + b)[1..] == a[1..] + b;
      NonBlankAppend(a[1..], b);
    }
  }

  /** The non-blank sentences of the description: none of them is all
      white space or holds a delimiter. */
  function Sentences(description: string): (r: seq<string>)
    ensures forall i :: 0 <= i < |r| ==> !AllSpace(r[i])
    ensures forall j, i :: 0 <= j < |r| && 0 <= i < |r[j]| ==> !IsSentenceEnd(r[j][i])
  {
    var pieces := SplitSentences(description);
    var r := NonBlank(pieces);
    forall j, i | 0 <= j < |r| && 0 <= i < |r[j]| ensures !IsSentenceEnd(r[j][i]) {
      assert r[j] in pieces;
      var k :| 0 <= k < |pieces| && pieces[k] == r[j];
    }
    r
  }

  /** `sentences.slice(0, 2).join('. ').trim()`: no white space at either
      end, and the trimmed sentence itself when there is only one. */
  function FirstPart(description: string): (r: string)
    ensures r == [] || (!IsSpace(r[0]) && !IsSpace(r[|r| - 1]))
    ensures |Sentences(description)| == 1 ==> r == Trim(Sentences(description)[0])
  {
    var sentences := Sentences(description);
    Trim(Join(sentences[..Min(2, |sentences|)], ". "))
  }

  /** How soon a response is needed, by type. */
  function UrgencyWord(t: Option<IncidentType>): (w: string)
    ensures w == "immediate" <==> IsImmediateType(t)
    ensures w == "timely" <==> !IsImmediateType(t)
  {
    if IsImmediateType(t) then "immediate" else "timely"
  }

  const AssessmentClause: string := "... Immediate assessment required."

  /** `generateSummary`: the first two sentences in a fixed template, or, when
      they are longer than 200 characters, a headline and their first 150. */
  function GenerateSummary(description: string, location: IncidentLocation, t: Option<IncidentType>): (r: string)
    ensures |r| > 0 && r[|r| - 1] == '.'
  {
    var firstPart := FirstPart(description);
    if |firstPart| > 200 then
      var r := Capitalize(TypeName(t)) + " reported at " + LocationName(location) + ". "
        + firstPart[..150] + AssessmentClause;
      assert r[|r| - 1] == AssessmentClause[|AssessmentClause| - 1];
      r
    else
      var r := firstPart + ". Location: " + LocationName(location) + ". Requires "
        + UrgencyWord(t) + " response.";
      assert r[|r| - 1] == " response."[9];
      r
  }

  /** However long the description, the summary is at most 254 characters. */
  lemma SummaryBounded(description: string, location: IncidentLocation, t: Option<IncidentType>)
    ensures |GenerateSummary(description, location, t)| <= 254
  {
    var firstPart := FirstPart(description);
    var name := LocationName(location);
    var s := GenerateSummary(description, location, t);
    if |firstPart| > 200 {
      var headline := Capitalize(TypeName(t));
      assert s == headline + " reported at " + name + ". " + firstPart[..150] + AssessmentClause;
      assert |headline| <= 22 && |AssessmentClause| == 34;
    } else {
      var word := UrgencyWord(t);
      assert s == firstPart + ". Location: " + name + ". Requires " + word + " response.";
      assert |word| <= 9;
    }
  }

  /** A short first part is kept whole at the head of the summary and the
      location and urgency template follows it. */
  lemma ShortSummaryShape(description: string, location: IncidentLocation, t: Option<IncidentType>)
    requires |FirstPart(description)| <= 200
    ensures var s := GenerateSummary(description, location, t);
      && FirstPart(description) <= s
      && s[|FirstPart(description)|..] == ". Location: " + LocationName(location)
           + ". Requires " + UrgencyWord(t) + " response."
  {
    var firstPart := FirstPart(description);
    var tail := ". Location: " + LocationName(location) + ". Requires " + UrgencyWord(t) + " response.";
    var s := GenerateSummary(description, location, t);
    assert s == firstPart + tail by {
      assert s == firstPart + ". Location: " + LocationName(location) + ". Requires " + UrgencyWord(t) + " response.";
      SeqAssoc5(firstPart, ". Location: ", LocationName(location), ". Requires ", UrgencyWord(t), " response.");
    }
    assert s[..|firstPart|] == firstPart;
    assert s[|firstPart|..] == tail;
  }

  /** A description that is one sentence, not blank and short once trimmed
      is summarised as that trimmed text followed by the template. */
  lemma SingleSentenceSummary(description: string, location: IncidentLocation, t: Option<IncidentType>)
    requires forall k :: 0 <= k < |description| ==> !IsSentenceEnd(description[k])
    requires !AllSpace(description)
    requires |Trim(description)| <= 200
    ensures var s := GenerateSummary(description, location, t);
      && Trim(description) <= s
      && s[|Trim(description)|..] == ". Location: " + LocationName(location)
           + ". Requires " + UrgencyWord(t) + " response."
  {
    assert FirstSentenceEnd(description) == |description|;
    assert SplitSentences(description) == [description];
    assert Sentences(description) == [description];
    ShortSummaryShape(description, location, t);
  }

  /** When the first two pieces are not blank, they are the first two
      sentences. */
  lemma FirstTwoKept(pieces: seq<string>)
    requires |pieces| >= 2 && !AllSpace(pieces[0]) && !AllSpace(pieces[1])
    ensures |NonBlank(pieces)| >= 2 && NonBlank(pieces)[..2] == [pieces[0], pieces[1]]
  {
    var rest := pieces[2..];
    assert pieces == [pieces[0]] + ([pieces[1]] + rest);
    NonBlankAppend([pieces[0]], [pieces[1]] + rest);
    NonBlankAppend([pieces[1]], rest);
    assert NonBlank(pieces) == [pieces[0]] + ([pieces[1]] + NonBlank(rest));
  }

  lemma JoinTwo(a: string, b: string, sep: string)
    ensures Join([a, b], sep) == a + sep + b
  {
    assert [a, b][1..] == [b];
  }

  /** A description cut into sentences whose first two are not blank has,
      as its first part, those two joined with ". " and trimmed: the later
      sentences play no part. */
  lemma FirstTwoSentences(description: string, pieces: seq<string>, runs: seq<string>)
    requires IsSentenceCut(description, pieces, runs)
    requires |pieces| >= 2 && !AllSpace(pieces[0]) && !AllSpace(pieces[1])
    ensures FirstPart(description) == Trim(pieces[0] + ". " + pieces[1])
  {
    SplitSentencesUnique(description, pieces, runs);
    FirstTwoKept(pieces);
    JoinTwo(pieces[0], pieces[1], ". ");
  }

  /** Such a description, when the first part is short, is summarised as
      the first two sentences joined and trimmed, followed by the location
      and urgency template. */
  lemma TwoSentenceSummary(description: string, pieces: seq<string>, runs: seq<string>,
                           location: IncidentLocation, t: Option<IncidentType>)
    requires IsSentenceCut(description, pieces, runs)
    requires |pieces| >= 2 && !AllSpace(pieces[0]) && !AllSpace(pieces[1])
    requires |Trim(pieces[0] + ". " + pieces[1])| <= 200
    ensures var s := GenerateSummary(description, location, t);
      var firstPart := Trim(pieces[0] + ". " + pieces[1]);
      && firstPart <= s
      && s[|firstPart|..] == ". Location: " + LocationName(location)
           + ". Requires " + UrgencyWord(t) + " response."
  {
    FirstTwoSentences(description, pieces, runs);
    ShortSummaryShape(description, location, t);
  }

  lemma SeqAssoc5(a: string, b: string, c: string, d: string, e: string, f: string)
    ensures a + b + c + d + e + f == a + (b + c + d + e + f)
  {
  }

  lemma ThreeParts(a: string, b: string, c: string)
    ensures var s := a + b + c;
      && s[..|a|] == a && s[|a|..|a| + |b|] == b && s[|a| + |b|..] == c
      && (|a| > 0 ==> s[0] == a[0])
  {
    var s := a + b + c;
    assert s == a + (b + c);
  }

  /** A long first part is cut to 150 characters after a headline that
      starts with a capital letter and names the location. */
  lemma LongSummaryShape(description: string, location: IncidentLocation, t: Option<IncidentType>)
    requires |FirstPart(description)| > 200
    ensures var s := GenerateSummary(description, location, t);
      var head := Capitalize(TypeName(t)) + " reported at " + LocationName(location) + ". ";
      && IsUpper(s[0])
      && head <= s
      && s[|head|..|head| + 150] == FirstPart(description)[..150]
      && s[|head| + 150..] == AssessmentClause
  {
    var s := GenerateSummary(description, location, t);
    var name := Capitalize(TypeName(t));
    var head := name + " reported at " + LocationName(location) + ". ";
    var cut := FirstPart(description)[..150];
    assert s == head + cut + AssessmentClause;
    assert |cut| == 150;
    ThreeParts(head, cut, AssessmentClause);
    assert head[0] == name[0];
  }

  /** There is no non-blank sentence exactly when the description holds
      nothing but white space and sentence delimiters. */
  lemma SentencesEmptyIff(description: string)
    ensures Sentences(description) == []
        <==> forall k :: 0 <= k < |description| ==> IsSpace(description[k]) || IsSentenceEnd(description[k])
  {
    var pieces := SplitSentences(description);
    SplitSentencesKeepsText(description);
    ConcatAllSpace(pieces);
    WithoutSentenceEndsAllSpace(description);
    assert (NonBlank(pieces) == []) <==> forall j :: 0 <= j < |pieces| ==> AllSpace(pieces[j]);
  }

  /** Joining the first two of a list of non-blank strings gives something
      blank only when the list is empty. */
  lemma JoinFirstTwoBlankIff(sentences: seq<string>)
    requires forall i :: 0 <= i < |sentences| ==> !AllSpace(sentences[i])
    ensures Trim(Join(sentences[..Min(2, |sentences|)], ". ")) == [] <==> sentences == []
  {
    var taken := sentences[..Min(2, |sentences|)];
    var joined := Join(taken, ". ");
    if sentences != [] {
      var first := sentences[0];
      assert taken[0] == first;
      JoinStartsWithFirst(taken, ". ");
      assert !AllSpace(first);
      assert forall k :: 0 <= k < |first| ==> joined[k] == first[k];
      assert !AllSpace(joined);
    } else {
      assert taken == [];
      assert AllSpace(joined);
    }
  }

  /** The first part is empty exactly when there is no non-blank sentence. */
  lemma FirstPartEmptyIffNoSentences(description: string)
    ensures FirstPart(description) == [] <==> Sentences(description) == []
  {
    JoinFirstTwoBlankIff(Sentences(description));
  }

  /** The first part is empty exactly when the description holds nothing but
      white space and sentence delimiters. */
  lemma FirstPartEmptyIff(description: string)
    ensures FirstPart(description) == []
        <==> forall k :: 0 <= k < |description| ==> IsSpace(description[k]) || IsSentenceEnd(description[k])
  {
    SentencesEmptyIff(description);
    FirstPartEmptyIffNoSentences(description);
  }

  // ------------------------------------------------------------- actions

  const DispatchAction: string := "Dispatch emergency response team immediately"
  // The texts of the other actions.
  const MedicalAlertAction: string := "Alert campus medical services"
  const TransportAction: string := "Prepare for potential hospital transport"
  const SuppressionAction: string := "Verify fire suppression systems activated"
  const EvacuateAction: string := "Evacuate affected area if needed"
  const SecurityAlertAction: string := "Alert security personnel"
  const DocumentAction: string := "Document incident for investigation"
  const FootageAction: string := "Review surveillance footage"
  const PatrolAction: string := "Increase patrol in area"
  const InspectionAction: string := "Schedule maintenance inspection"
  const CordonAction: string := "Cordon off area if safety risk exists"
  const CounselingAction: string := "Contact counseling services"
  const SupportAction: string := "Ensure confidential support available"
  const AssessAction: string := "Assess situation and determine response"
  const WardenAction: string := "Notify hostel warden"
  const LabSupervisorAction: string := "Notify lab supervisor"

  /** The action the priority adds at the front. */
  function PriorityActions(p: Priority): (r: seq<string>)
    ensures |r| == if p == High then 1 else 0
  {
    if p == High then [DispatchAction] else []
  }

  /** The actions the incident type adds: two for each named type, and the
      single default action for an absent or `other` type. */
  function TypeActions(t: Option<IncidentType>): (r: seq<string>)
    ensures |r| == if t == None || t == Some(IncidentType.Other) then 1 else 2
  {
    match t
    case Some(Medical) => [MedicalAlertAction, TransportAction]
    case Some(Fire) => [SuppressionAction, EvacuateAction]
    case Some(Harassment) => [SecurityAlertAction, DocumentAction]
    case Some(Suspicious) => [FootageAction, PatrolAction]
    case Some(Infrastructure) => [InspectionAction, CordonAction]
    case Some(MentalHealth) => [CounselingAction, SupportAction]
    case _ => [AssessAction]
  }

  /** The action the location adds at the end: hostels and laboratories only. */
  function LocationActions(l: IncidentLocation): (r: seq<string>)
    ensures |r| == if l == Hostel || l == Laboratory then 1 else 0
  {
    if l == Hostel then [WardenAction]
    else if l == Laboratory then [LabSupervisorAction]
    else []
  }

  /** `generateActions`: the three groups in order, cut to at most four.
      There are never more than four, so the cut never removes an action. */
  function SuggestedActions(p: Priority, t: Option<IncidentType>, l: IncidentLocation): (r: seq<string>)
    ensures r == PriorityActions(p) + TypeActions(t) + LocationActions(l)
    ensures 1 <= |r| <= 4
    ensures p == High ==> r[0] == DispatchAction
    ensures p != High ==> r[0] == TypeActions(t)[0]
  {
    var all := PriorityActions(p) + TypeActions(t) + LocationActions(l);
    all[..Min(4, |all|)]
  }

  /** The three groups together never hold more than four actions. */
  lemma ActionGroupsFit(p: Priority, t: Option<IncidentType>, l: IncidentLocation)
    ensures 1 <= |PriorityActions(p) + TypeActions(t) + LocationActions(l)| <= 4
  {
  }

  /** `generateActions` as the source writes it: pushes onto a list, then
      keeps the first four. */
  method GenerateActions(priority: Priority, incidentType: Option<IncidentType>, location: IncidentLocation)
    returns (actions: seq<string>)
    ensures actions == SuggestedActions(priority, incidentType, location)
  {
    actions := [];
    if priority == High {
      actions := actions + [DispatchAction];
    }
    assert actions == PriorityActions(priority);
    ghost var front := actions;
    match incidentType {
      case Some(Medical) =>
        actions := actions + [MedicalAlertAction];
        actions := actions + [TransportAction];
        assert actions == front + TypeActions(incidentType);
      case Some(Fire) =>
        actions := actions + [SuppressionAction];
        actions := actions + [EvacuateAction];
        assert actions == front + TypeActions(incidentType);
      case Some(Harassment) =>
        actions := actions + [SecurityAlertAction];
        actions := actions + [DocumentAction];
        assert actions == front + TypeActions(incidentType);
      case Some(Suspicious) =>
        actions := actions + [FootageAction];
        actions := actions + [PatrolAction];
        assert actions == front + TypeActions(incidentType);
      case Some(Infrastructure) =>
        actions := actions + [InspectionAction];
        actions := actions + [CordonAction];
        assert actions == front + TypeActions(incidentType);
      case Some(MentalHealth) =>
        actions := actions + [CounselingAction];
        actions := actions + [SupportAction];
        assert actions == front + TypeActions(incidentType);
      case _ =>
        actions := actions + [AssessAction];
        assert actions == front + TypeActions(incidentType);
    }
    ghost var middle := actions;
    if location == Hostel {
      actions := actions + [WardenAction];
    } else if location == Laboratory {
      actions := actions + [LabSupervisorAction];
    }
    assert actions == middle + LocationActions(location);
    ghost var all := PriorityActions(priority) + TypeActions(incidentType) + LocationActions(location);
    assert actions == all;
    ActionGroupsFit(priority, incidentType, location);
    actions := actions[..Min(4, |actions|)];
    assert actions == all;
  }

  // ----------------------------------------------------------- classifier

  /** What `processReport` returns, stated as one function of its inputs. */
  function Classify(description: string, location: IncidentLocation, t: Option<IncidentType>): (r: Analysis)
    ensures 3 <= r.severityScore <= 10
    ensures 1 <= |r.suggestedActions| <= 4
  {
    var h := HighMatches(description);
    var m := ModMatches(description);
    var severity := SeverityScore(h, m, t);
    var priority := DecidePriority(severity, h, m, t);
    Analysis(priority, severity, GenerateSummary(description, location, t),
             SuggestedActions(priority, t, location))
  }

  /** `processReport`, updating its score and priority step by step. The
      report's date and time are accepted by the source but never used, so
      they are not a parameter here. */
  method ProcessReport(description: string, location: IncidentLocation, incidentType: Option<IncidentType>)
    returns (r: Analysis)
    ensures r == Classify(description, location, incidentType)
    ensures 1 <= r.severityScore <= 10
  {
    var lowerDescription := ToLower(description);
    var severityScore := 3;
    var priority := Low;
    var highMatches := CountMatches(HighUrgencyKeywords, lowerDescription);
    var modMatches := CountMatches(ModerateUrgencyKeywords, lowerDescription);
    if incidentType == Some(Medical) || incidentType == Some(Fire) || incidentType == Some(Harassment) {
      severityScore := severityScore + 3;
    } else if incidentType == Some(Suspicious) || incidentType == Some(Infrastructure) {
      severityScore := severityScore + 1;
    }
    severityScore := severityScore + highMatches * 2;
    severityScore := severityScore + modMatches;
    assert severityScore == RawSeverity(highMatches, modMatches, incidentType);
    severityScore := Min(10, Max(1, severityScore));
    assert highMatches == HighMatches(description) && modMatches == ModMatches(description);
    assert severityScore == SeverityScore(highMatches, modMatches, incidentType);
    if severityScore >= 7 || highMatches >= 2 || incidentType == Some(Medical) || incidentType == Some(Fire) {
      priority := High;
    } else if severityScore >= 4 || modMatches >= 2 || incidentType == Some(Harassment) || incidentType == Some(Suspicious) {
      priority := Moderate;
    } else {
      priority := Low;
    }
    assert priority == DecidePriority(severityScore, highMatches, modMatches, incidentType);
    ClassifyScores(description, location, incidentType);
    var summary := GenerateSummary(description, location, incidentType);
    var suggestedActions := GenerateActions(priority, incidentType, location);
    r := Analysis(priority, severityScore, summary, suggestedActions);
  }

  // ------------------------------------------------------------ properties

  /** Medical and fire reports, and reports naming two or more different
      high-urgency keywords, are high priority whatever else they say. */
  lemma ForcedHigh(description: string, location: IncidentLocation, t: Option<IncidentType>)
    requires IsImmediateType(t) || HighMatches(description) >= 2
    ensures Classify(description, location, t).priority == High
    ensures Classify(description, location, t).suggestedActions[0] == DispatchAction
  {
  }

  /** Two different high-urgency keywords in the lower-cased text make the
      report high priority. */
  lemma TwoHighKeywordsForceHigh(description: string, location: IncidentLocation, t: Option<IncidentType>, i: int, j: int)
    requires 0 <= i < j < |HighUrgencyKeywords|
    requires Contains(ToLower(description), HighUrgencyKeywords[i])
    requires Contains(ToLower(description), HighUrgencyKeywords[j])
    ensures Classify(description, location, t).priority == High
  {
    TwoPresentCountTwo(HighUrgencyKeywords, ToLower(description), i, j);
  }

  /** The score and priority of a report, in terms of its two keyword counts. */
  lemma ClassifyScores(description: string, location: IncidentLocation, t: Option<IncidentType>)
    ensures var h, m := HighMatches(description), ModMatches(description);
      && Classify(description, location, t).severityScore == SeverityScore(h, m, t)
      && Classify(description, location, t).priority == DecidePriority(SeverityScore(h, m, t), h, m, t)
  {
  }

  /** The high rule in terms of the counts before clamping. */
  lemma DecideHighIff(h: nat, m: nat, t: Option<IncidentType>)
    ensures DecidePriority(SeverityScore(h, m, t), h, m, t) == High
        <==> RawSeverity(h, m, t) >= 7 || h >= 2 || IsImmediateType(t)
  {
  }

  /** The low rule: no keyword of either list and a type that adds nothing. */
  lemma DecideLowIff(h: nat, m: nat, t: Option<IncidentType>)
    ensures DecidePriority(SeverityScore(h, m, t), h, m, t) == Low
        <==> h == 0 && m == 0 && (t == None || t == Some(MentalHealth) || t == Some(IncidentType.Other))
    ensures DecidePriority(SeverityScore(h, m, t), h, m, t) == Low ==> SeverityScore(h, m, t) == 3
  {
  }

  /** A report is high priority exactly when its unclamped score reaches 7,
      it names two different high-urgency keywords, or it is medical or fire. */
  lemma HighIff(description: string, location: IncidentLocation, t: Option<IncidentType>)
    ensures Classify(description, location, t).priority == High <==>
      (|| RawSeverity(HighMatches(description), ModMatches(description), t) >= 7
       || HighMatches(description) >= 2
       || IsImmediateType(t))
  {
    ClassifyScores(description, location, t);
    DecideHighIff(HighMatches(description), ModMatches(description), t);
  }

  /** A report is low priority exactly when it names no keyword of either
      list and its type is absent, `mental_health` or `other`; its severity
      is then 3. */
  lemma LowIff(description: string, location: IncidentLocation, t: Option<IncidentType>)
    ensures Classify(description, location, t).priority == Low
        <==> HighMatches(description) == 0 && ModMatches(description) == 0
             && (t == None || t == Some(MentalHealth) || t == Some(IncidentType.Other))
    ensures Classify(description, location, t).priority == Low
        ==> Classify(description, location, t).severityScore == 3
  {
    var h, m := HighMatches(description), ModMatches(description);
    var r := Classify(description, location, t);
    ClassifyScores(description, location, t);
    DecideLowIff(h, m, t);
    assert r.priority == DecidePriority(SeverityScore(h, m, t), h, m, t);
    assert r.severityScore == SeverityScore(h, m, t);
  }

  /** "threat" is on both lists, so it counts toward both scores: a report
      mentioning it scores at least 6 and is never low priority. */
  lemma ThreatCountsTwice(description: string, location: IncidentLocation, t: Option<IncidentType>)
    requires Contains(ToLower(description), "threat")
    ensures HighMatches(description) >= 1 && ModMatches(description) >= 1
    ensures Classify(description, location, t).severityScore >= 6
    ensures Classify(description, location, t).priority != Low
  {
    KeywordListsDistinct();
    PresentCountsOnce(HighUrgencyKeywords, ToLower(description), 8);
    PresentCountsOnce(ModerateUrgencyKeywords, ToLower(description), 7);
    ClassifyScores(description, location, t);
    DecideLowIff(HighMatches(description), ModMatches(description), t);
  }

  /** A list in which exactly one entry is present counts one. */
  lemma {:induction false} CountExactlyOne(keywords: seq<string>, text: string, i: int)
    requires 0 <= i < |keywords| && Contains(text, keywords[i])
    requires forall j :: 0 <= j < |keywords| && j != i ==> !Contains(text, keywords[j])
    ensures CountMatches(keywords, text) == 1
  {
    if i > 0 {
      assert keywords[1..][i - 1] == keywords[i];
      forall j | 0 <= j < |keywords[1..]| && j != i - 1 ensures !Contains(text, keywords[1..][j]) {
        assert keywords[1..][j] == keywords[j + 1];
      }
      CountExactlyOne(keywords[1..], text, i - 1);
      assert !Contains(text, keywords[0]);
    } else {
      forall j | 0 <= j < |keywords[1..]| ensures !Contains(text, keywords[1..][j]) {
        assert keywords[1..][j] == keywords[j + 1];
      }
    }
  }

  /** A text without the letters o, b, r, v, m, j, h, s, d and w names no
      high-urgency keyword other than possibly "attack". */
  lemma NoHighKeyword(text: string)
    requires 'o' !in text && 'b' !in text && 'r' !in text && 'v' !in text && 'm' !in text
    requires 'j' !in text && 'h' !in text && 's' !in text && 'd' !in text && 'w' !in text
    requires !Contains(text, "attack")
    ensures CountMatches(HighUrgencyKeywords, text) == 0
  {
    NoEarlyHighKeyword(text);
    NoLateHighKeyword(text);
  }

  lemma NoEarlyHighKeyword(text: string)
    requires 'o' !in text && 'b' !in text && 'r' !in text && 'v' !in text && 'm' !in text
    requires 'j' !in text && !Contains(text, "attack")
    ensures forall i :: 0 <= i < 8 ==> !Contains(text, HighUrgencyKeywords[i])
  {
    MissingCharNotContained(text, "unconscious", 'o');
    MissingCharNotContained(text, "bleeding", 'b');
    MissingCharNotContained(text, "fire", 'r');
    MissingCharNotContained(text, "violence", 'v');
    MissingCharNotContained(text, "emergency", 'm');
    MissingCharNotContained(text, "collapse", 'o');
    MissingCharNotContained(text, "injured", 'j');
  }

  lemma NoLateHighKeyword(text: string)
    requires 'b' !in text && 'r' !in text
    requires 'h' !in text && 's' !in text && 'd' !in text && 'w' !in text
    ensures forall i :: 8 <= i < 17 ==> !Contains(text, HighUrgencyKeywords[i])
  {
    MissingCharNotContained(text, "threat", 'h');
    MissingCharNotContained(text, "assault", 's');
    MissingCharNotContained(text, "burning", 'b');
    MissingCharNotContained(text, "smoke", 's');
    MissingCharNotContained(text, "unresponsive", 'r');
    MissingCharNotContained(text, "help", 'h');
    MissingCharNotContained(text, "danger", 'd');
    MissingCharNotContained(text, "weapon", 'w');
    MissingCharNotContained(text, "fight", 'h');
  }

  /** A text without the letters s, d, b, o, h and v names at most the
      moderate-urgency keywords "leak" and nothing else. */
  lemma OnlyLeakKeyword(text: string)
    requires 's' !in text && 'd' !in text && 'b' !in text && 'o' !in text && 'h' !in text && 'v' !in text
    requires Contains(text, "leak")
    ensures CountMatches(ModerateUrgencyKeywords, text) == 1
  {
    NoOtherModerateKeyword(text);
    CountExactlyOne(ModerateUrgencyKeywords, text, 3);
  }

  lemma NoOtherModerateKeyword(text: string)
    requires 's' !in text && 'd' !in text && 'b' !in text && 'o' !in text && 'h' !in text && 'v' !in text
    ensures forall j :: 0 <= j < 12 && j != 3 ==> !Contains(text, ModerateUrgencyKeywords[j])
  {
    MissingCharNotContained(text, "suspicious", 's');
    MissingCharNotContained(text, "damage", 'd');
    MissingCharNotContained(text, "broken", 'b');
    MissingCharNotContained(text, "unsafe", 's');
    MissingCharNotContained(text, "concern", 'o');
    MissingCharNotContained(text, "harassment", 'h');
    MissingCharNotContained(text, "threat", 'h');
    MissingCharNotContained(text, "following", 'o');
    MissingCharNotContained(text, "vandalism", 'v');
    MissingCharNotContained(text, "smell", 's');
    MissingCharNotContained(text, "noise", 'o');
  }

  /** "leaking faucet" is already lower case. */
  lemma LeakingFaucetLower(text: string)
    requires text == "leaking faucet"
    ensures ToLower(text) == text
  {
  }

  /** The letters "leaking faucet" lacks that rule out most keywords. */
  lemma LeakingFaucetLetters(text: string)
    requires text == "leaking faucet"
    ensures 'o' !in text && 'b' !in text && 'r' !in text && 'v' !in text && 'm' !in text
    ensures 'j' !in text && 'h' !in text && 's' !in text && 'd' !in text && 'w' !in text
  {
    assert forall k :: 0 <= k < |text| ==> text[k] in "leaking fauct";
  }

  /** "leaking faucet" contains "leak". */
  lemma LeakingFaucetHasLeak(text: string)
    requires text == "leaking faucet"
    ensures Contains(text, "leak")
  {
    assert OccursAt(text, "leak", 0);
    ContainsIffOccurs(text, "leak");
  }

  /** An example input: "leaking faucet" names no high-urgency keyword and
      one moderate one, "leak". */
  lemma LeakingFaucetCounts(description: string)
    requires description == "leaking faucet"
    ensures HighMatches(description) == 0
    ensures ModMatches(description) == 1
  {
    LeakingFaucetLower(description);
    LeakingFaucetLetters(description);
    LeakingFaucetHasLeak(description);
    AttackAbsent(description);
    NoHighKeyword(description);
    OnlyLeakKeyword(description);
  }

  lemma AttackAbsent(text: string)
    requires text == "leaking faucet"
    ensures !Contains(text, "attack")
  {
    ContainsIffOccurs(text, "attack");
    forall i ensures !OccursAt(text, "attack", i) {
      if 0 <= i && i + 6 <= |text| {
        assert text[i..i + 6][0] == text[i] && text[i..i + 6][1] == text[i + 1];
      }
    }
  }

  /** An example input: since "leaking faucet" contains "leak", a report of
      it without a type scores 4 and is moderate. */
  lemma LeakingFaucetIsModerate(description: string, location: IncidentLocation)
    requires description == "leaking faucet"
    ensures Classify(description, location, None).priority == Moderate
    ensures Classify(description, location, None).severityScore == 4
  {
    LeakingFaucetCounts(description);
    ClassifyScores(description, location, None);
  }
}
