# Campus Sentinel — a verified model of the triage core

Campus Sentinel is a campus incident-reporting web application. A reporter
fills in a form: a location, an optional incident type, a description and a
date and time. A rule-based classifier turns the form into a priority, a
severity score, a summary and a list of suggested actions, and the report is
put in front of an in-memory issue store. Administrators log in, see the
store on a dashboard sorted by priority, and update an issue's status and
notes from its detail page.

This project models, in Dafny, the parts of the application that hold logic:

- the classifier (`AiProcessor`): keyword counting over the lower-cased
  text, the clamped severity score, the three-way priority rule, the
  two-branch summary template and the action list;
- the issue store (`IssueContext`): a class whose one `seq<Issue>` field is
  seeded with the mock issues; issues are prepended, updated by id and found
  first-match;
- the administrator session (`AuthContext`): a class holding an optional
  administrator, with guarded login and sign-up and an unconditional logout;
- the submission logic of the report page (`ReportPage`): the option tables,
  the guard on the form, the record built from it and the submit handler;
- the dashboard's sorted copy and four counts (`AdminDashboard`);
- the detail page's form initialisation, save, accept-suggestions note and
  severity band (`IssueDetailPage`);
- the seed data and label tables (`MockData`), the record shapes and
  enumerations (`Types`), and the JavaScript string operations the rest
  relies on (`Text`), including lower-casing, `trim`, `split` and `join`,
  and decimal rendering.

Clock reads (`Date.now()`, `new Date()`) become `now: Time` parameters, where
`Time` is an `int` of milliseconds. The one reading taken when the seed data
is loaded becomes `loadTime`. The date and time a reporter types become the
`dateTime` parameter of the submit handler. The stateful parts are classes:
- `IssueProvider`, the store;
- `AuthProvider`, the session;
- `ReportPage`, the submitting and submitted flags;
- `IssueDetail`, the status and notes form.

Their methods are proved against functions of the old state. The
classifier's two step-by-step procedures, `processReport` and
`generateActions`, are methods proved equal to the function `Classify` and
`SuggestedActions` respectively; the properties are lemmas about those
functions.

Three consequences of the code that are easy to miss:
- The code scores "leaking faucet" 4, as moderate, because it contains the
  moderate keyword "leak" (`AiProcessor.LeakingFaucetIsModerate`).
- An update naming an unknown id leaves the store as it was, and a lookup
  of one finds nothing; neither reports anything
  (`IssueContext.UpdateUnknownId`).
- Every update whose status is `resolved` sets `resolvedAt` to the time of
  that update, also when the issue was resolved already
  (`IssueDetailPage.UntouchedSave`).

## Model

| member | source | states |
|---|---|---|
| Types.AllPrioritiesComplete | src/lib/types.ts:1 | the priority list has three entries and names each priority exactly once |
| Types.AllStatusesComplete | src/lib/types.ts:2 | the status list has three entries and names each status exactly once |
| Types.AllLocationsComplete | src/lib/types.ts:3-12 | the location list has nine entries and names each location exactly once |
| Types.AllIncidentTypesComplete | src/lib/types.ts:14-21 | the incident-type list has seven entries and names each type exactly once |
| Text.ToLower | src/lib/aiProcessor.ts:22 | lower-casing keeps the length, maps each character, and leaves no upper-case letter |
| Text.ContainsIffOccurs | src/lib/aiProcessor.ts:29-30 | `includes` holds exactly when the pattern occurs at some index |
| Text.Contains | src/lib/aiProcessor.ts:29-30 | the empty pattern is always included, and an included pattern is no longer than the text |
| Text.Trim | src/lib/aiProcessor.ts:73-74 | the trimmed text is an infix of the text with only white space before and after it, starts and ends with non-space, and is empty exactly when the text is all white space |
| Text.SplitSentences | src/lib/aiProcessor.ts:73 | splitting on runs of `.`, `!`, `?` gives at least one piece, and no piece holds a delimiter; where it cuts is fixed by the two lemmas about cuts below |
| Text.SplitSentencesKeepsText | src/lib/aiProcessor.ts:73 | the pieces, put back together, are the text with the delimiters deleted |
| Text.DelimiterRuns | src/lib/aiProcessor.ts:73 | the delimiter runs the split cuts at number one fewer than the pieces |
| Text.SplitSentencesIsCut | src/lib/aiProcessor.ts:73 | the split cuts at maximal delimiter runs: no piece holds a delimiter, every inner piece is non-empty, and the pieces with the runs between them give back the text |
| Text.SplitSentencesUnique | src/lib/aiProcessor.ts:73 | any such cut of a text is the split and its runs, so the split is fully determined |
| Text.Join | src/lib/aiProcessor.ts:74 | a join of nothing is empty, of one part is that part, and otherwise has the parts' length plus one separator between each two |
| Text.SplitOnJoin | src/pages/IssueDetailPage.tsx:61 | splitting a join on its one-character separator gives back the parts when no part holds it |
| Text.NatToString | src/pages/IssueDetailPage.tsx:61 | a decimal rendering is non-empty, all digits, and has no leading zero |
| Text.ParseNatToString | src/pages/IssueDetailPage.tsx:61 | reading a decimal rendering back gives the number |
| Text.IntToStringInjective | src/pages/ReportPage.tsx:70 | different integers render differently |
| AiProcessor.CountMatches | src/lib/aiProcessor.ts:29-30 | a keyword count is at most the list length, and zero exactly when no keyword occurs |
| AiProcessor.KeywordListsDistinct | src/lib/aiProcessor.ts:11-20 | neither keyword list repeats an entry, and "threat" is on both |
| AiProcessor.CountIsPresentKeywords | src/lib/aiProcessor.ts:29-30 | the count is the number of distinct keywords present, not the number of occurrences |
| AiProcessor.TwoPresentCountTwo | src/lib/aiProcessor.ts:29-30 | two different entries present count at least two |
| AiProcessor.CountExactlyOne | src/lib/aiProcessor.ts:29-30 | a list with exactly one entry present counts one |
| AiProcessor.HighMatches | src/lib/aiProcessor.ts:22-29 | the high count is the number of distinct high-urgency keywords in the lower-cased description, at most 17 |
| AiProcessor.ModMatches | src/lib/aiProcessor.ts:22-30 | the moderate count is the number of distinct moderate-urgency keywords in the lower-cased description, at most 12 |
| AiProcessor.TypeBonus | src/lib/aiProcessor.ts:32-36 | the type adds at most 3, nothing exactly for an absent, mental health or `other` type, and 3 for medical and fire |
| AiProcessor.RawSeverity | src/lib/aiProcessor.ts:25-39 | the raw score is at least 3, exactly 3 when nothing matches and the type adds nothing, and two high keywords alone reach 7 |
| AiProcessor.SeverityScore | src/lib/aiProcessor.ts:25-42 | the score is in 3..10, the raw score or 10; the lower clamp never fires |
| AiProcessor.DecidePriority | src/lib/aiProcessor.ts:44-51 | a score of 7 or more is high, and a low decision has a score below 4, fewer than two matches on each list and no medical or fire type |
| AdminDashboard.MoreMatchesSortNoLater | src/lib/aiProcessor.ts:25-51 | more keyword matches of either kind never give a priority that ranks later |
| AiProcessor.DecideHighIff | src/lib/aiProcessor.ts:45-46 | high exactly when the raw score reaches 7, two high keywords are present, or the type is medical or fire |
| AiProcessor.DecideLowIff | src/lib/aiProcessor.ts:44-51 | low exactly when neither list matches and the type adds nothing; a low score is then 3 |
| AiProcessor.HighIff | src/lib/aiProcessor.ts:25-46 | the high rule stated over the description's keyword counts |
| AiProcessor.LowIff | src/lib/aiProcessor.ts:25-51 | the low rule stated over the description's keyword counts, with severity 3 |
| AiProcessor.ClassifyScores | src/lib/aiProcessor.ts:25-51 | the classifier's score and priority are the clamped score and the decision over the two counts |
| AiProcessor.ForcedHigh | src/lib/aiProcessor.ts:45-46 | medical, fire or two high keywords give high priority and the dispatch action first |
| AiProcessor.TwoHighKeywordsForceHigh | src/lib/aiProcessor.ts:29-46 | two different high keywords in the lower-cased text force high priority |
| AiProcessor.ThreatCountsTwice | src/lib/aiProcessor.ts:11-51 | "threat" counts on both lists, so the score is at least 6 and the priority never low |
| AiProcessor.LeakingFaucetCounts | src/lib/aiProcessor.ts:11-30 | "leaking faucet" matches no high keyword and exactly one moderate keyword |
| AiProcessor.LeakingFaucetIsModerate | src/lib/aiProcessor.ts:25-48 | "leaking faucet" without a type scores 4 and is moderate |
| AiProcessor.LocationName | src/lib/aiProcessor.ts:138-151 | every location has a name of 1 to 12 characters |
| AiProcessor.IncidentTypeName | src/lib/aiProcessor.ts:153-164 | every type name is non-empty and starts lower case |
| AiProcessor.TypeName | src/lib/aiProcessor.ts:77 | the name used in the summary, "incident" without a type, is non-empty and starts lower case |
| AiProcessor.NonBlank | src/lib/aiProcessor.ts:73 | the kept pieces are exactly the non-blank pieces, a single piece is kept exactly when it is non-blank, and none is kept exactly when all are blank |
| AiProcessor.NonBlankAppend | src/lib/aiProcessor.ts:73 | filtering distributes over concatenation, so the kept pieces keep their order |
| AiProcessor.Sentences | src/lib/aiProcessor.ts:73 | no sentence is blank and none holds a delimiter |
| AiProcessor.FirstPart | src/lib/aiProcessor.ts:73-74 | the first part has no white space at either end, and is the trimmed sentence when there is only one |
| AiProcessor.UrgencyWord | src/lib/aiProcessor.ts:83 | "immediate" exactly for medical and fire, otherwise "timely" |
| AiProcessor.SentencesEmptyIff | src/lib/aiProcessor.ts:73 | there is no non-blank sentence exactly when the description is only white space and delimiters |
| AiProcessor.JoinFirstTwoBlankIff | src/lib/aiProcessor.ts:74 | the joined first two non-blank sentences are blank only when there are none |
| AiProcessor.FirstPartEmptyIffNoSentences | src/lib/aiProcessor.ts:73-74 | the first part is empty exactly when there is no non-blank sentence |
| AiProcessor.FirstPartEmptyIff | src/lib/aiProcessor.ts:73-74 | the first part is empty exactly when the description is only white space and delimiters |
| AiProcessor.GenerateSummary | src/lib/aiProcessor.ts:67-84 | every summary is non-empty and ends with a full stop |
| AiProcessor.SummaryBounded | src/lib/aiProcessor.ts:67-84 | every summary is at most 254 characters long |
| AiProcessor.SingleSentenceSummary | src/lib/aiProcessor.ts:67-83 | a non-blank description without a delimiter that trims to at most 200 characters is summarised as the trimmed description followed by the location and urgency template |
| AiProcessor.FirstTwoSentences | src/lib/aiProcessor.ts:73-74 | when the first two sentences of a description are not blank, its first part is those two joined with ". " and trimmed, whatever follows them |
| AiProcessor.TwoSentenceSummary | src/lib/aiProcessor.ts:67-83 | such a description with a first part of at most 200 characters is summarised as that first part followed by the location and urgency template |
| AiProcessor.LongSummaryShape | src/lib/aiProcessor.ts:79-80 | a longer first part gives a capitalised headline with the location, its first 150 characters and the assessment clause |
| AiProcessor.PriorityActions | src/lib/aiProcessor.ts:94-96 | high priority adds one action, others none |
| AiProcessor.TypeActions | src/lib/aiProcessor.ts:99-126 | an absent or `other` type adds one action, every other type two |
| AiProcessor.LocationActions | src/lib/aiProcessor.ts:129-133 | hostel and laboratory add one action, other locations none |
| AiProcessor.ActionGroupsFit | src/lib/aiProcessor.ts:91-135 | the three groups together hold 1 to 4 actions, so the cut to four removes nothing |
| AiProcessor.SuggestedActions | src/lib/aiProcessor.ts:91-135 | the actions are the three groups in order, 1 to 4 of them, with dispatch first when high |
| AiProcessor.GenerateActions | src/lib/aiProcessor.ts:86-136 | the pushing procedure yields exactly the suggested actions |
| AiProcessor.Classify | src/lib/aiProcessor.ts:4-65 | every analysis has severity in 3..10 and 1 to 4 actions |
| AiProcessor.ProcessReport | src/lib/aiProcessor.ts:4-65 | the step-by-step procedure returns exactly the analysis `Classify` defines, with severity in 1..10 |
| MockData.SeedIssue | src/lib/mockData.ts:4-20 | a seed record carries its id, location, type, texts, age-derived times, priority, severity and status, and no optional field |
| MockData.SeedIds | src/lib/mockData.ts:3-108 | the seeds carry the ids "1" to "6" in order, pairwise distinct |
| MockData.SeedsWellFormed | src/lib/mockData.ts:3-108 | every seed has severity in 1..10, was reported when created and before load time, and the seeds are newest first |
| MockData.SeedsOnlyFifthResolved | src/lib/mockData.ts:73-90 | only seed "5" is resolved and only it has a resolution time, between its creation and load time |
| MockData.SeedsThreeActions | src/lib/mockData.ts:3-108 | seeds built from texts with three actions suggest three actions each |
| MockData.SeedTextsThreeActions | src/lib/mockData.ts:3-108 | each of the six seed texts suggests three actions |
| MockData.MockIssuesFacts | src/lib/mockData.ts:3-108 | the seed list has the four properties above |
| MockData.SeedsAreNotClassifierOutputs | src/lib/mockData.ts:39-107 | seed "3" is a fire stored as moderate where the classifier says high, and seed "6" has severity 2, never a classifier score |
| MockData.LocationLabel | src/lib/mockData.ts:147-157 | every location has a label of 1 to 12 characters |
| MockData.LocationLabelsAgreeWithNames | src/lib/mockData.ts:147-157 | the labels equal the classifier's names except `other`: "Other" against "Campus" |
| MockData.LocationLabelsDistinct | src/lib/mockData.ts:147-157 | no two locations share a label |
| MockData.IncidentTypeLabel | src/lib/mockData.ts:159-167 | every incident type has a label of 1 to 24 characters |
| MockData.IncidentTypeLabelsDistinct | src/lib/mockData.ts:159-167 | no two incident types share a label |
| AuthContext.MockAdminProfile | src/lib/mockData.ts:110-119 | the seed administrator has the id "admin-1", an email, a phone and no avatar, is management, and has counters 147, 12 and 94 |
| IssueContext.KeptNotes | src/contexts/IssueContext.tsx:27 | non-empty notes replace the old ones; absent or empty notes keep them |
| IssueContext.WithStatus | src/contexts/IssueContext.tsx:23-29 | an updated issue is the same report with the new status, whatever the old one was, so any status may follow any other; the notes are kept as `KeptNotes` says, and `resolvedAt` is set exactly for `resolved`, otherwise kept |
| IssueContext.UpdateAll | src/contexts/IssueContext.tsx:21-33 | the update keeps the length, updates every issue with the id in place and keeps every other issue |
| IssueContext.FindById | src/contexts/IssueContext.tsx:35-37 | nothing is found exactly when no issue has the id; otherwise the first issue with the id |
| IssueContext.IssueProvider.constructor | src/contexts/IssueContext.tsx:15 | the store starts with the seed list |
| IssueContext.IssueProvider.AddIssue | src/contexts/IssueContext.tsx:17-19 | the new issue goes in front of the old list, and a lookup of its id then finds it |
| IssueContext.IssueProvider.UpdateIssueStatus | src/contexts/IssueContext.tsx:21-33 | the list becomes its update at the given time |
| IssueContext.IssueProvider.GetIssueById | src/contexts/IssueContext.tsx:35-37 | a found issue has the id and is stored; nothing is found exactly when no stored issue has the id |
| IssueContext.FindAfterPrepend | src/contexts/IssueContext.tsx:17-37 | after a prepend the lookup of its id finds the new issue, even over an older duplicate |
| IssueContext.FindOtherAfterPrepend | src/contexts/IssueContext.tsx:17-37 | after a prepend the lookup of any other id finds what it found before |
| IssueContext.UpdateUnknownId | src/contexts/IssueContext.tsx:22-32 | an update naming an id no issue has leaves the list unchanged |
| IssueContext.UpdateKeepsReports | src/contexts/IssueContext.tsx:22-31 | an update keeps the order and every field but status, notes and resolution time |
| IssueContext.ResolvedAtNeverCleared | src/contexts/IssueContext.tsx:28 | a resolution time, once set, survives every update |
| IssueContext.UpdateIdempotent | src/contexts/IssueContext.tsx:22-32 | repeating an update at the same time changes nothing more |
| IssueContext.FindAfterUpdate | src/contexts/IssueContext.tsx:21-37 | after an update the lookup of the id finds the update of what it found before, other lookups are unaffected |
| AuthContext.AdminId | src/contexts/AuthContext.tsx:39 | the id is "admin-" followed by the decimal rendering of the time |
| AuthContext.AdminIdsDistinct | src/contexts/AuthContext.tsx:39 | sign-ups at different times get different ids |
| AuthContext.NewAdmin | src/contexts/AuthContext.tsx:38-46 | the new administrator has the given email, name and role, no avatar or phone, and zero counters |
| AuthContext.SignupGuardStricter | src/contexts/AuthContext.tsx:22-37 | details sign-up accepts pass the login guard, and an empty name fails sign-up only |
| AuthContext.AuthProvider.IsAuthenticated | src/contexts/AuthContext.tsx:60 | `!!admin`: authenticated exactly when an administrator is present; the method rows state it after each operation |
| AuthContext.AuthProvider.constructor | src/contexts/AuthContext.tsx:16 | the session starts without an administrator and unauthenticated |
| AuthContext.AuthProvider.Login | src/contexts/AuthContext.tsx:18-27 | true exactly for a non-empty email and a password of six or more; on success the seed administrator, on failure the session untouched |
| AuthContext.AuthProvider.Signup | src/contexts/AuthContext.tsx:29-51 | true exactly when login's guard holds and the name is non-empty; on success the new administrator, on failure the session untouched |
| AuthContext.AuthProvider.Logout | src/contexts/AuthContext.tsx:53-55 | the session ends, whatever it was |
| ReportPage.LocationOptions | src/pages/ReportPage.tsx:14-24 | one option per location, each with a caption |
| ReportPage.LocationOptionsComplete | src/pages/ReportPage.tsx:14-24 | the location list offers the nine locations in order, each exactly once |
| ReportPage.LocationOptionsLabelled | src/pages/ReportPage.tsx:14-24 | each location option is captioned as in the shared label table |
| ReportPage.IncidentTypeOptions | src/pages/ReportPage.tsx:26-34 | one option per incident type, each with a caption |
| ReportPage.IncidentTypeOptionsComplete | src/pages/ReportPage.tsx:26-34 | the type list offers the seven types in order, each exactly once |
| ReportPage.IncidentTypeOptionsLabelled | src/pages/ReportPage.tsx:26-34 | each type option is captioned as in the shared label table |
| ReportPage.Complete | src/pages/ReportPage.tsx:52 | a complete form has a location and a description, which the record needs |
| ReportPage.SubmitDisabled | src/pages/ReportPage.tsx:265 | the button is disabled exactly when the form is incomplete or a submission is under way |
| ReportPage.IssueId | src/pages/ReportPage.tsx:70 | the id is "issue-" followed by the decimal rendering of the time |
| ReportPage.IssueIdsDistinct | src/pages/ReportPage.tsx:70 | reports submitted at different times get different ids |
| ReportPage.NewIssue | src/pages/ReportPage.tsx:69-79 | the record has the form's fields, the analysis, pending status, the custom location only for `other`, and no administrative field |
| ReportPage.Submitted | src/pages/ReportPage.tsx:61-79 | a submitted record is pending, keeps the description, and has severity in 1..10 and 1 to 4 actions |
| ReportPage.ImmediateReportsStoredHigh | src/pages/ReportPage.tsx:62-79 | a medical or fire report is stored high with the dispatch action first |
| ReportPage.AddSubmitted | src/pages/ReportPage.tsx:62-81 | the store gains exactly the classified record in front |
| ReportPage.ReportPage.constructor | src/pages/ReportPage.tsx:46-47 | the page starts neither submitting nor submitted |
| ReportPage.ReportPage.HandleSubmit | src/pages/ReportPage.tsx:49-84 | an incomplete form changes nothing; a complete one adds exactly its record in front and marks the page submitted |
| AdminDashboard.Rank | src/pages/AdminDashboard.tsx:37 | the rank table is total over priorities: 0 exactly for high, 2 exactly for low |
| AdminDashboard.RankInjective | src/pages/AdminDashboard.tsx:37 | no two priorities share a rank |
| AdminDashboard.WithPriority | src/pages/AdminDashboard.tsx:41-42 | the filtered list is no longer than the store and holds exactly the stored issues of that priority |
| AdminDashboard.WithStatus | src/pages/AdminDashboard.tsx:43-44 | the filtered list is no longer than the store and holds exactly the stored issues of that status |
| AdminDashboard.WithPriorityAppend | src/pages/AdminDashboard.tsx:41-42 | filtering distributes over concatenation |
| AdminDashboard.Insert | src/pages/AdminDashboard.tsx:36-39 | an insertion adds exactly the one issue |
| AdminDashboard.SortByPriority | src/pages/AdminDashboard.tsx:36 | the sorted copy is a permutation of the store |
| AdminDashboard.InsertBehind | src/pages/AdminDashboard.tsx:36-39 | an issue is inserted behind every issue ranking strictly better |
| AdminDashboard.InsertIntoBuckets | src/pages/AdminDashboard.tsx:36-39 | inserting an issue into the buckets of the rest gives the buckets of the whole |
| AdminDashboard.SortIsBuckets | src/pages/AdminDashboard.tsx:36-39 | the sorted copy is all high issues, then moderate, then low, each in store order |
| AdminDashboard.SortedByRank | src/pages/AdminDashboard.tsx:37-38 | ranks never decrease along the sorted copy |
| AdminDashboard.SortIsStable | src/pages/AdminDashboard.tsx:36-39 | issues of one priority keep their store order |
| AdminDashboard.CountPriority | src/pages/AdminDashboard.tsx:41-42 | a priority count is at most the number of issues, and zero exactly when no issue has that priority |
| AdminDashboard.CountStatus | src/pages/AdminDashboard.tsx:43-44 | a status count is at most the number of issues, and zero exactly when no issue has that status |
| AdminDashboard.PriorityCountsPartition | src/pages/AdminDashboard.tsx:41-42 | the three priority counts add up to the number of issues |
| AdminDashboard.StatusCountsPartition | src/pages/AdminDashboard.tsx:43-44 | the three status counts add up to the number of issues |
| AdminDashboard.UpdateKeepsPriorityCounts | src/pages/AdminDashboard.tsx:41-42 | a status update moves no issue between priority counts |
| AdminDashboard.Dashboard | src/pages/AdminDashboard.tsx:25-44 | nothing without an administrator; otherwise a permutation sorted into buckets and the four counts, with high plus moderate and pending plus resolved at most the total |
| IssueDetailPage.InitialForm | src/pages/IssueDetailPage.tsx:25-27 | the form starts with the issue's status or pending, and its notes or the empty text |
| IssueDetailPage.UntouchedSave | src/pages/IssueDetailPage.tsx:26-54 | saving the form as initialised keeps the issue, except that a resolved issue gets the save time as its resolution time |
| IssueDetailPage.EmptyNotesKept | src/pages/IssueDetailPage.tsx:54 | a save with an empty notes box keeps the stored notes of every issue it updates |
| IssueDetailPage.NumberedLines | src/pages/IssueDetailPage.tsx:61 | line `i` is the number `first + i`, ". " and action `i` |
| IssueDetailPage.AcceptedHeading | src/pages/IssueDetailPage.tsx:61 | the heading is 30 characters with no line break |
| IssueDetailPage.AcceptedNotes | src/pages/IssueDetailPage.tsx:61 | the note starts with the heading and a line break, so it is never empty |
| IssueDetailPage.AcceptedNotesLines | src/pages/IssueDetailPage.tsx:61 | split at line breaks, the note is the heading and then the numbered actions |
| IssueDetailPage.LineNumberReadsBack | src/pages/IssueDetailPage.tsx:61 | the digits before the first full stop of line `i` read back as `i + 1` |
| IssueDetailPage.SeverityBand | src/pages/IssueDetailPage.tsx:104-106 | 7 and above is the top band, 4 to 6 the middle, below 4 the bottom |
| IssueDetailPage.BandOfDecision | src/pages/IssueDetailPage.tsx:104-106 | over keyword counts, the top band forces high and the bottom band is exactly low |
| IssueDetailPage.BandOfClassified | src/pages/IssueDetailPage.tsx:104-106 | for a classified report, the top band is only high and the bottom band exactly low |
| IssueDetailPage.IssueDetail.constructor | src/pages/IssueDetailPage.tsx:21-27 | the page uses the route id or the empty id, and initialises the form from the store's lookup |
| IssueDetailPage.IssueDetail.HandleSave | src/pages/IssueDetailPage.tsx:31-57 | when authenticated and the issue is found, the store applies the form's status and notes to the id; otherwise nothing changes |
| IssueDetailPage.IssueDetail.HandleAcceptSuggestions | src/pages/IssueDetailPage.tsx:31-63 | when shown, the form becomes in progress with the accepted-suggestions note; otherwise it is kept |
| IssueDetailPage.AcceptThenSave | src/pages/IssueDetailPage.tsx:59-63 | saving after accepting marks the issue in progress with the note and keeps its resolution time |

## Left out

- Rendering, styling, icons, toasts and navigation are not modelled. Neither are the landing, authentication and not-found pages or the route table: they hold no logic beyond forwarding form fields.
- The simulated delays (`setTimeout`) are left out. Every handler is a synchronous method, so no interleaving of two submissions or saves is modelled.
- Clocks are parameters. `Date.now()` and `new Date()` become `now` or `loadTime`. The ids use the decimal rendering of that integer.
- The seed list uses one `loadTime` for all its clock reads. The source reads the clock once per field.
- Parsing the typed date and time (`new Date(...)`) and all date formatting are left out. The parsed report time is the `dateTime` parameter.
- `processReport` takes a report date that it never uses. `ProcessReport` has no such parameter.
- Lower- and upper-casing cover ASCII letters only. String lengths count `char`s, not UTF-16 code units.
- The context hooks' errors for use outside a provider are not modelled: they are framework wiring.
- `mockWeeklyReport` is left out: it is fixed display numbers with no logic.
- The description length counter on the report page is left out: it is display only, and nothing enforces a bound.
- The lookup and update of an unknown id are silent no-ops in the code, and the model keeps them so. No not-found or authentication error is surfaced to the caller.
- The seed texts are written as sums of short literals. Each sum denotes the same string as the source's literal.
- MockData.Seeds and MockData.MockIssues: their properties are stated by MockData.MockIssuesFacts and the generic seed lemmas, not by their own contracts.
