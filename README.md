# abuja-watch, modelled in Dafny

abuja-watch is an election-monitoring dashboard for the six area councils of
the Federal Capital Territory (FCT). Observers submit ward-level reports:
- logistics;
- staffing;
- a nine-box collation-integrity checklist;
- vote counts;
- party scores;
- security incidents.

A Go backend rolls these reports up into per-council summaries, ward details
and dashboard statistics. It also guards its routes with bearer tokens and
roles. A seeder fills the database with random party scores.

A React frontend does four things:
- it classifies risk;
- it aggregates the council summaries into overview, integrity, security,
  results, turnout and red-flag statistics;
- it filters and sorts those summaries for the map, the filter bar, the
  situation room and the dashboard sections;
- it keeps the admin forms and the route guard's selection state.

This project models that core. It gives one Dafny module per source file and
proves the properties those files promise.

Shared modules:
- `Common`: `Option`/`Result`, `Sum`, `Count`, `Filter`, `Map`, `Take` and
  order-preserving subsequences.
- `Records`: an insertion-ordered association list. It stands for a
  JavaScript object used as a dictionary and for a Go map. It provides `Put`,
  `Get`, `Add`, `AddAll`, `IndexBy` and `Tally`.
- `Sorting`: a stable insertion sort on real-valued keys. It stands for
  `Array.prototype.sort` with a numeric comparator. JavaScript's sort is
  stable, so ties keep their input order.
- `Charts`: the six-party bar chart and the bar-width rule shared by several
  views.

Where the source changes state step by step, the model is imperative:
- the ward roll-up loop of `GetAreaCouncils` and its map updates;
- the `forEach` accumulators of `getSecurityStats`, `getResultsSummary`,
  `getRedFlagSummary`, `typeBreakdown` and `timelinessStats`;
- the seeder's vote-splitting loop;
- the storage that `ProtectedRoute` clears.

Each of these is a `method`. Each loop carries invariants and is proved
equal to a specification function, and that function's properties are
proved as lemmas. `GetDashboardStats` is also a `method`, because the
handler adjusts its local counts one statement at a time; it has no loop,
and its contract gives every field of the response in terms of the
counts it is given. Component
state that React replaces through setters is a `class` whose methods state
their whole new state:
- the admin panel;
- the filter bar's ward list;
- the LGA detail modal;
- the browser's `localStorage`.

Expressions, `filter`/`reduce` chains and copied-then-sorted arrays are
functions.

The seeder splits a ward's valid votes among seven parties. It draws
`rand.Intn(max/2)` for the minor parties. When exactly one vote is left to
spare, that call receives 0, which Go rejects with a panic. The model
carries this as the error result of the split: `Seeder.SevenVotesPanic`
shows that a ward with 7 valid votes always reaches it.

## Model

| member | source | states |
|---|---|---|
| ElectionTypes.NameInjective | frontend/src/data/electionTypes.ts:235 | the five risk levels have five distinct names, so comparing names is comparing levels |
| ElectionTypes.FailedChecks | frontend/src/data/electionTypes.ts:247-249 | at most 9 of the collation checks fail, and none fail exactly when all nine pass |
| ElectionTypes.FlagScore | frontend/src/data/electionTypes.ts:240-245 | the six observation flags add at most 3+3+2+2+1+1 = 12 |
| ElectionTypes.RiskScore | frontend/src/data/electionTypes.ts:238-250 | the score is the flag score plus at most 4 for failed checks (half of at most 9, rounded down), so it never exceeds 16 |
| ElectionTypes.CalculateRiskLevel | frontend/src/data/electionTypes.ts:252-256 | the level returned is the one whose threshold (8, 6, 3, 1, 0) the score reaches and whose next threshold it does not |
| ElectionTypes.RiskMonotone | frontend/src/data/electionTypes.ts:237-257 | a report at least as bad in every flag and check never gets a lower score or a lower risk level |
| ElectionTypes.FailedChecksMonotone | frontend/src/data/electionTypes.ts:248-249 | failing a superset of checks counts at least as many failures |
| ElectionTypes.FlagScoreMonotone | frontend/src/data/electionTypes.ts:240-245 | raising flags never lowers the flag score |
| ElectionTypes.CleanReportIsNone | frontend/src/data/electionTypes.ts:255-256 | a report with access, security, no incidents, no late start and all checks passed scores 0 and is "none" |
| ElectionTypes.DeniedAndIntimidatedIsHigh | frontend/src/data/electionTypes.ts:240-253 | denied access plus intimidation alone scores 6 and is "high" |
| ElectionTypes.OneFailedCheckAddsNothing | frontend/src/data/electionTypes.ts:250 | a single failed check adds nothing, because the count is halved and rounded down |
| MockElectionData.GetOverviewStats | frontend/src/data/mockElectionData.ts:334-346 | the council count is the list length, and at most that many councils have reported |
| MockElectionData.OverviewWards | frontend/src/data/mockElectionData.ts:335-343 | reported wards lie between 0 and total wards; no council has reported exactly when no ward has |
| MockElectionData.OverviewCompliance | frontend/src/data/mockElectionData.ts:337 | the mean compliance of percentages lies in [0, 100] |
| MockElectionData.GetProcessIntegrityStats | frontend/src/data/mockElectionData.ts:348-371 | an empty list gives all zeros; otherwise the overall score is 0.4·compliance + 0.3·timeliness + 0.3·access |
| MockElectionData.ProcessIntegrityBounded | frontend/src/data/mockElectionData.ts:358-369 | when late starts and denials are at most the ward counts and compliances are percentages, all six scores lie in [0, 100] |
| MockElectionData.GetSecurityStats | frontend/src/data/mockElectionData.ts:373-405 | the loop's counters equal the sums of incidents and of the three breakdown kinds, and incidentsByLGA indexes each council's incident count by id |
| MockElectionData.IncidentsByLGAEntries | frontend/src/data/mockElectionData.ts:389 | each id maps to the count of its last council with that id, and an absent id maps to nothing |
| MockElectionData.PartyTotals | frontend/src/data/mockElectionData.ts:416-419 | the totals object has twelve distinct party keys whose values sum to the six counted parties |
| MockElectionData.Upper | frontend/src/data/mockElectionData.ts:438 | upper-casing keeps the length of the party key |
| MockElectionData.PodiumSpec | frontend/src/data/mockElectionData.ts:434-439 | the leader holds the largest total and is the first with it in key order; the runner-up holds the largest of the rest |
| MockElectionData.GetResultsSummary | frontend/src/data/mockElectionData.ts:407-443 | party totals and rejected votes are the sums over councils, valid votes are the sum of the six parties, and the leader and margin come from the sorted totals ("None" and 0 when empty) |
| MockElectionData.LeadingPartyAndMargin | frontend/src/data/mockElectionData.ts:434-439 | the margin is non-negative and is the smallest lead the leader holds over any other party, reached by some party |
| MockElectionData.GetTurnoutStats | frontend/src/data/mockElectionData.ts:445-469 | an empty list gives zeros and no entries; turnoutByLGA has distinct keys |
| MockElectionData.TurnoutByLGALast | frontend/src/data/mockElectionData.ts:458-461 | each council id maps to the turnout of its last council with that id |
| MockElectionData.TurnoutTotalsCoverEachLGA | frontend/src/data/mockElectionData.ts:445-469 | with non-negative counts, each council's cancelled polling units and lost voters are at most the reported totals |
| MockElectionData.OverallTurnoutBounded | frontend/src/data/mockElectionData.ts:464 | when no council casts more votes than it registered, overall turnout lies in [0, 100] |
| MockElectionData.GetRedFlagSummary | frontend/src/data/mockElectionData.ts:471-506 | the four counters are the sums of denials, late starts, violation points and countersignature shortfalls, and the flagged names are those of councils passing the flag test, in order |
| MockElectionData.FlaggedLocationsSpec | frontend/src/data/mockElectionData.ts:487-491 | flagged names are an ordered subsequence of all names, every flagged council's name is listed, and every listed name belongs to a flagged council |
| MockElectionData.RedFlagsNeedReports | frontend/src/data/mockElectionData.ts:487-495 | with no ward reported anywhere, there are no violations, no shortfalls and no flagged locations |
| MockElectionData.IntegrityViolationsBounded | frontend/src/data/mockElectionData.ts:492-494 | with compliance scores as percentages, violation points lie between 0 and 10 per council |
| Handlers.WardCompliance | backend/internal/handlers/handlers.go:82-91 | a ward's compliance is 0, 30, 40, 60, 70 or 100; 100 exactly when all three documents are done and 0 exactly when none is |
| Handlers.ComputeWardCompliance | backend/internal/handlers/handlers.go:82-91 | the step-by-step additions give the same value as WardCompliance |
| Handlers.RiskFromIncidents | backend/internal/handlers/handlers.go:143-148 | the backend assigns only low, medium or high |
| Handlers.RiskFromIncidentsMonotone | backend/internal/handlers/handlers.go:144-148 | more incidents never lower the risk level |
| Handlers.Turnout | backend/internal/handlers/handlers.go:139-141 | turnout is 0 without registered voters or without votes, and a percentage when cast ≤ registered |
| Handlers.AccumulateRows | backend/internal/handlers/handlers.go:106-112 | adding rows into a map in place gives AddAll of the rows, and the running total is the sum of their counts |
| Handlers.AggregateAreaCouncil | backend/internal/handlers/handlers.go:43-148 | the loop over a council's wards produces exactly the roll-up specification RollUp |
| Handlers.GetAreaCouncils | backend/internal/handlers/handlers.go:17-155 | one summary per council, in order, each the roll-up of that council's wards |
| Handlers.CompliancePointsBound | backend/internal/handlers/handlers.go:82-92 | total compliance lies between 0 and 100 per reported ward |
| Handlers.RollUp | backend/internal/handlers/handlers.go:53-135 | one area council's summary from its ward rows; the AggregateAreaCouncil loop is proved equal to it, and its fields are stated by RollUpBounds, RollUpIncidents, RollUpParties and RollUpUnreported |
| Handlers.RollUpBounds | backend/internal/handlers/handlers.go:53-135 | late starts ≤ reported wards ≤ wards; compliance and security presence lie in [0, 100]; compliance is 0 with no reported ward |
| Handlers.RollUpIncidents | backend/internal/handlers/handlers.go:110-111 | the incident breakdown has distinct types and its counts sum to the incident count |
| Handlers.RollUpParties | backend/internal/handlers/handlers.go:123 | each party's total is the sum of its scores over the wards |
| Handlers.RollUpUnreported | backend/internal/handlers/handlers.go:56-100 | with no ward results, every result-derived field is 0 and only registered voters are summed |
| Handlers.WardDetail | backend/internal/handlers/handlers.go:337-370 | a ward detail has compliance 75, low risk, no cancelled units and an observer present; without a result its counts and turnout are 0; party keys are distinct |
| Handlers.WardDetailPartyLast | backend/internal/handlers/handlers.go:320-330 | each party maps to the score of its last row |
| Handlers.LateStartAgrees | backend/internal/handlers/handlers.go:351 | the ward view's late start is the same test the council roll-up counts |
| Handlers.GetWards | backend/internal/handlers/handlers.go:284-376 | the list is the ward detail of each input, in order |
| Handlers.GetWardDetails | backend/internal/handlers/handlers.go:379-468 | a missing ward is the error "Ward not found"; otherwise the detail carries the ward's id and council |
| Handlers.WardDetailsAgree | backend/internal/handlers/handlers.go:379-468 | the single-ward endpoint returns the same detail as the list endpoint |
| Handlers.GetDashboardStats | backend/internal/handlers/handlers.go:601-667 | the council, ward, report and polling-unit counts are passed through unchanged; operational units are max(0, open − with issues), minor issues are the units with issues, not-opened is 0 and offline is total − open, so the breakdown covers all units when issues ≤ open; compliance is 0 with no report and otherwise compliant reports / reports × 100, a percentage when compliant ≤ reported |
| Middleware.Split | backend/internal/middleware/middleware.go:26 | splitting always yields at least one piece |
| Middleware.SplitSpec | backend/internal/middleware/middleware.go:26 | a split gives one more piece than there are separators, and no piece contains the separator |
| Middleware.SplitJoin | backend/internal/middleware/middleware.go:26 | joining the pieces with the separator gives back the header |
| Middleware.SplitNoSeparator | backend/internal/middleware/middleware.go:26 | a string without the separator splits into itself |
| Middleware.SplitAround | backend/internal/middleware/middleware.go:26 | splitting around one separator concatenates the splits of the two sides |
| Middleware.Authenticate | backend/internal/middleware/middleware.go:18-42 | `AuthMiddleware`: an empty header, a header that is not exactly "Bearer" and one token, and a token that does not validate are rejected, otherwise the request proceeds with the token's user and role; stated by AuthenticateRejectsWith401, WellFormedHeader, AcceptedHeader and ExtraSpaceRejected |
| Middleware.AuthenticateRejectsWith401 | backend/internal/middleware/middleware.go:18-42 | every rejection is 401, and an empty header is rejected as "Unauthorized" |
| Middleware.WellFormedHeader | backend/internal/middleware/middleware.go:26-40 | for "Bearer " plus a token without spaces, the outcome is "Invalid token" or the next handler with the token's user and role |
| Middleware.AcceptedHeader | backend/internal/middleware/middleware.go:26-40 | any accepted header is exactly "Bearer " plus a space-free valid token, and the context carries that token's claims |
| Middleware.ExtraSpaceRejected | backend/internal/middleware/middleware.go:26-30 | a doubled space gives three parts and is rejected as an invalid header |
| Middleware.RequireRole | backend/internal/middleware/middleware.go:44-53 | the next handler runs, with the same context, exactly when the context role equals the required one; otherwise 403 "Forbidden" |
| Middleware.Protect | backend/internal/middleware/middleware.go:18-53 | `AuthMiddleware` around `RequireRole`: the first rejection wins, otherwise the role check decides; stated by ProtectedRouteAccess |
| Middleware.ProtectedRouteAccess | backend/internal/middleware/middleware.go:18-53 | a well-formed request passes both layers exactly when its token validates with the required role; a bad token is 401, a wrong role is 403 |
| ProtectedRoute.Decide | frontend/src/components/ProtectedRoute.tsx:12-38 | only "token" and "user" are ever cleared, and only on a redirect to /login |
| ProtectedRoute.NoTokenGoesToLogin | frontend/src/components/ProtectedRoute.tsx:13-15 | without a token the guard goes to /login and clears nothing |
| ProtectedRoute.ExpiredClearsBoth | frontend/src/components/ProtectedRoute.tsx:21-25 | an expired token clears both keys and goes to /login |
| ProtectedRoute.UndecodableClearsToken | frontend/src/components/ProtectedRoute.tsx:32-35 | a token that does not decode clears only "token" and goes to /login |
| ProtectedRoute.WrongRoleGoesToAdmin | frontend/src/components/ProtectedRoute.tsx:27-30 | a live token with the wrong role goes to /admin and clears nothing |
| ProtectedRoute.RendersIff | frontend/src/components/ProtectedRoute.tsx:13-37 | children render exactly when a token exists, decodes, has not expired and has the required role (when one is required) |
| ProtectedRoute.LocalStorage.constructor | frontend/src/components/ProtectedRoute.tsx:10 | storage starts with the given items |
| ProtectedRoute.LocalStorage.RemoveItem | frontend/src/components/ProtectedRoute.tsx:22-23 | removing a key deletes exactly that key |
| ProtectedRoute.Guard | frontend/src/components/ProtectedRoute.tsx:12-38 | the guard's target is the decision's, and storage loses exactly the keys the decision clears |
| Seeder.Intn | backend/cmd/seeder/main.go:160-164 | a draw succeeds exactly when its bound is positive, and then lies in [0, bound) |
| Seeder.IntnCovers | backend/cmd/seeder/main.go:160-164 | every value below the bound can be drawn |
| Seeder.MajorShare | backend/cmd/seeder/main.go:168-170 | a major party's share of the valid votes lies in [0, validVotes] |
| Seeder.Score | backend/cmd/seeder/main.go:151-175 | one party's score from one draw; stated by ScoreSpec and ScoreRange |
| Seeder.ScoreSpec | backend/cmd/seeder/main.go:151-175 | a party's score fails exactly when the spare votes are 1; otherwise it lies in [0, remaining]: the last party gets all remaining, a minor party gets 0 with nothing spare and at most half the remainder otherwise, and a major party gets its share capped at the remainder |
| Seeder.ScoreRange | backend/cmd/seeder/main.go:151-175 | a successful score with non-negative remaining votes is between 0 and the remaining votes |
| Seeder.SplitVotes | backend/cmd/seeder/main.go:149-185 | the loop produces exactly the recursive split Distribute, including its panic |
| Seeder.SeedPartyResults | backend/cmd/seeder/main.go:132-187 | seeding a ward is the split of its valid votes over the seven parties |
| Seeder.Distribute | backend/cmd/seeder/main.go:149-185 | the scores of the remaining parties, or the panic of a zero bound; the SplitVotes loop is proved equal to it, and DistributeLength, DistributeSums and SeedingConservesVotes state its result |
| Seeder.DistributeLength | backend/cmd/seeder/main.go:149-185 | a successful split gives one score per remaining party |
| Seeder.DistributeSum | backend/cmd/seeder/main.go:149-185 | when the last party is minor, a successful split's scores sum to the votes that remained |
| Seeder.DistributeNonNegative | backend/cmd/seeder/main.go:175 | starting from non-negative votes, no score is negative, so remaining votes never go negative |
| Seeder.DistributeSums | backend/cmd/seeder/main.go:149-185 | scores are non-negative and sum to the remaining votes |
| Seeder.SeedingConservesVotes | backend/cmd/seeder/main.go:132-187 | a successful seeding gives seven non-negative scores summing to the valid votes |
| Seeder.LastPartyMinor | backend/cmd/seeder/main.go:17 | the party list has seven entries and ends with a minor party |
| Seeder.SevenVotesPanic | backend/cmd/seeder/main.go:160-161 | a ward with 7 valid votes always reaches rand.Intn(0) |
| Seeder.NoVotesAllZero | backend/cmd/seeder/main.go:149-185 | a ward without votes gets all-zero scores |
| Admin.TrimStart | frontend/src/pages/Admin.tsx:153 | leading whitespace is gone and nothing is added |
| Admin.Show | frontend/src/pages/Admin.tsx:153 | a number prints as a non-empty run of digits |
| Admin.ParseInt | frontend/src/pages/Admin.tsx:153 | parseInt fails exactly when, after blanks and a sign, no digit follows |
| Admin.ParseIntOrZero | frontend/src/pages/Admin.tsx:153 | `parseInt(x) \|\| 0` is the parsed value, or 0 when parsing fails (what parses to what is stated by the ParseInt* lemmas and EmptyFieldIsZero) |
| Admin.ValueShow | frontend/src/pages/Admin.tsx:153 | reading back a printed number gives the number |
| Admin.DigitPrefixOf | frontend/src/pages/Admin.tsx:153 | parsing stops at the first non-digit |
| Admin.ParseIntShow | frontend/src/pages/Admin.tsx:153 | a printed number followed by any non-digit parses back to that number |
| Admin.ParseIntDigitStart | frontend/src/pages/Admin.tsx:153 | input starting with a digit parses to the value of its leading digits |
| Admin.ParseIntShowNegative | frontend/src/pages/Admin.tsx:153 | a minus sign before a printed number gives its negation |
| Admin.ParseIntMinusDigit | frontend/src/pages/Admin.tsx:153 | a minus followed by digits parses to minus their value |
| Admin.EmptyFieldIsZero | frontend/src/pages/Admin.tsx:153 | an empty field, or one starting with "e" or ".", submits 0 |
| Admin.ActiveParties | frontend/src/pages/Admin.tsx:41-63 | no council gives no parties, a failed fetch gives the eight-party default, an empty or missing list gives the four-party default, otherwise the configured list |
| Admin.ActivePartiesNonEmpty | frontend/src/pages/Admin.tsx:51-58 | with a council selected, the party list is never empty |
| Admin.LogisticsSubmit | frontend/src/pages/Admin.tsx:130-144 | nothing is sent without a ward; otherwise the ward and both times are sent |
| Admin.StaffingSubmit | frontend/src/pages/Admin.tsx:146-161 | nothing is sent without a ward; counts are parsed or 0, and security is present exactly when the field is "yes" |
| Admin.IntegritySubmit | frontend/src/pages/Admin.tsx:163-181 | nothing is sent without a ward |
| Admin.IntegrityIgnoresThreeBoxes | frontend/src/pages/Admin.tsx:77-87 | the EC40G, EC40H and EC8C-distributed boxes never affect what is sent |
| Admin.IntegrityCopiesSixBoxes | frontend/src/pages/Admin.tsx:168-176 | the six other boxes are sent unchanged |
| Admin.ResultsSubmit | frontend/src/pages/Admin.tsx:183-199 | nothing is sent without a ward; the four counts are parsed or 0 |
| Admin.ResultsRoundTrip | frontend/src/pages/Admin.tsx:188-194 | typing the decimal form of four counts sends exactly those counts |
| Admin.AdminPanel.constructor | frontend/src/pages/Admin.tsx:20-39 | the panel starts with no council, ward, wards or parties and the default incident form |
| Admin.AdminPanel.SelectAreaCouncil | frontend/src/pages/Admin.tsx:312-313 | choosing a council resets the ward and changes nothing else |
| Admin.AdminPanel.SelectWard | frontend/src/pages/Admin.tsx:327 | choosing a ward changes only the ward |
| Admin.AdminPanel.LoadForAreaCouncil | frontend/src/pages/Admin.tsx:41-63 | without a council both lists are emptied; with one the fetched wards (if any) and the active parties are stored |
| Admin.AdminPanel.LogIncident | frontend/src/pages/Admin.tsx:122-128 | logging an incident clears only its title and description |
| PartyConfiguration.Toggle | frontend/src/components/admin/PartyConfiguration.tsx:38-44 | a listed party is removed everywhere while every other party keeps its order and its number of occurrences; an unlisted one is appended |
| PartyConfiguration.ToggleMembership | frontend/src/components/admin/PartyConfiguration.tsx:38-44 | toggling flips the party's membership and leaves every other party's |
| PartyConfiguration.ToggleTwiceMembership | frontend/src/components/admin/PartyConfiguration.tsx:38-44 | toggling twice restores every party's membership |
| PartyConfiguration.ToggleTwiceAbsent | frontend/src/components/admin/PartyConfiguration.tsx:39-42 | adding then removing an unlisted party restores the list exactly |
| PartyConfiguration.ToggleStaysWithinOffered | frontend/src/components/admin/PartyConfiguration.tsx:38-44 | toggling offered parties only ever lists offered parties |
| PartyConfiguration.Loaded | frontend/src/components/admin/PartyConfiguration.tsx:21-36 | no council empties the list, a null result becomes [], a list is taken as is, and a failed load keeps the old list |
| PartyConfiguration.Save | frontend/src/components/admin/PartyConfiguration.tsx:46-51 | nothing is saved without a council; otherwise exactly the council and its list |
| FilterBar.FromChoice | frontend/src/components/dashboard/FilterBar.tsx:57 | "all" means no filter and any other choice filters on itself (its effect on the active-filter count is stated by the *ChangeCount lemmas) |
| FilterBar.ActiveFilterCount | frontend/src/components/dashboard/FilterBar.tsx:93 | at most 5 filters are active, and none exactly when every field is empty |
| FilterBar.LgaChange | frontend/src/components/dashboard/FilterBar.tsx:56-64 | changing the council sets it (or clears it on "all"), clears the ward and keeps the other three |
| FilterBar.WardChange | frontend/src/components/dashboard/FilterBar.tsx:66-68 | the ward filter is cleared exactly on "all" and otherwise holds the chosen value; council, incident type, risk level and time window are unchanged |
| FilterBar.IncidentChange | frontend/src/components/dashboard/FilterBar.tsx:70-72 | the incident-type filter is cleared exactly on "all" and otherwise holds the chosen value; the other four filters are unchanged |
| FilterBar.RiskChange | frontend/src/components/dashboard/FilterBar.tsx:74-76 | the risk-level filter is cleared exactly on "all" and otherwise holds the chosen value; the other four filters are unchanged |
| FilterBar.TimeChange | frontend/src/components/dashboard/FilterBar.tsx:78-80 | the time-window filter is cleared exactly on "all" and otherwise holds the chosen value; the other four filters are unchanged |
| FilterBar.ClearedCountsZero | frontend/src/components/dashboard/FilterBar.tsx:82-93 | after clearing, no filter is active |
| FilterBar.WardChangeCount | frontend/src/components/dashboard/FilterBar.tsx:66-93 | "all" removes exactly the ward's contribution to the active-filter count; a non-empty ward adds one exactly when no ward was active |
| FilterBar.IncidentChangeCount | frontend/src/components/dashboard/FilterBar.tsx:70-93 | "all" removes exactly the incident type's contribution to the count; a non-empty type adds one exactly when none was active |
| FilterBar.RiskChangeCount | frontend/src/components/dashboard/FilterBar.tsx:74-93 | "all" removes exactly the risk level's contribution to the count; a non-empty level adds one exactly when none was active |
| FilterBar.TimeChangeCount | frontend/src/components/dashboard/FilterBar.tsx:78-93 | "all" removes exactly the time window's contribution to the count; a non-empty window adds one exactly when none was active |
| FilterBar.AllCouncilsCount | frontend/src/components/dashboard/FilterBar.tsx:56-93 | "all" councils drops the council and ward from the count |
| FilterBar.FilterBarState.constructor | frontend/src/components/dashboard/FilterBar.tsx:54 | the ward list starts empty |
| FilterBar.FilterBarState.HandleLgaChange | frontend/src/components/dashboard/FilterBar.tsx:56-64 | the filters become LgaChange's, and the ward list is the generated wards for a council or empty for "all" |
| FilterBar.FilterBarState.ClearFilters | frontend/src/components/dashboard/FilterBar.tsx:82-91 | all five filters are cleared and the ward list is emptied |
| IndexPage.NoFilterKeepsAll | frontend/src/pages/Index.tsx:47-56 | without a council or risk filter the list is returned unchanged |
| IndexPage.FilteredLGAData | frontend/src/pages/Index.tsx:47-56 | the council filter, then the risk-level filter, each only when set; stated by FilteredMembership, FilteredIsSubsequence, NoFilterKeepsAll and OtherFiltersIgnored |
| IndexPage.FilteredMembership | frontend/src/pages/Index.tsx:47-56 | a council is kept exactly when it is in the list and matches the council and risk filters that are set |
| IndexPage.FilteredIsSubsequence | frontend/src/pages/Index.tsx:47-56 | the result keeps the input's order |
| IndexPage.OtherFiltersIgnored | frontend/src/pages/Index.tsx:47-56 | ward, incident type and time window do not affect the result |
| IndexPage.MapFilter | frontend/src/pages/Index.tsx:82 | the map's filter: the risk-level value when set, otherwise "all"; stated by MapFilterNeverNarrows |
| IndexPage.MapFilterNeverNarrows | frontend/src/pages/Index.tsx:75-84 | the map receives the full list and a risk level (or "all") as its filter, so it keeps every council and dims exactly the councils missing from the data, none without a risk-level filter |
| AbujaMap.FilteredCouncils | frontend/src/components/AbujaMap.tsx:22-35 | the councils the filter string picks, with every value but "high-risk", "low-turnout" and "incidents" keeping all; stated by FilteredCouncilsSpec |
| AbujaMap.FilteredCouncilsSpec | frontend/src/components/AbujaMap.tsx:22-35 | a council is kept exactly when the filter picks it (high risk, turnout below 52, any incident), in input order; every other filter value, "open" and the risk levels included, keeps the whole list |
| AbujaMap.IsDimmed | frontend/src/components/AbujaMap.tsx:160 | a council is dimmed under a filter other than "all" that did not pick it; stated in both directions by IsDimmedSpec |
| AbujaMap.IsDimmedSpec | frontend/src/components/AbujaMap.tsx:22-37 | dimmed exactly when the filter is not "all" and no data entry of that id is picked |
| AbujaMap.NothingDimmedUnfiltered | frontend/src/components/AbujaMap.tsx:159-160 | under "all" nothing is dimmed; under any filter value that does not narrow ("open", a risk level, anything else) exactly the councils missing from the data are dimmed |
| AbujaMap.Click | frontend/src/components/AbujaMap.tsx:169 | a dimmed council ignores clicks; clicking the selected council deselects it, any other selects it |
| AbujaMap.ClickTwiceDeselects | frontend/src/components/AbujaMap.tsx:169 | clicking a council twice leaves nothing selected |
| AbujaMap.MouseEnter | frontend/src/components/AbujaMap.tsx:170 | hovering a dimmed council changes nothing; otherwise it becomes the hovered one |
| AbujaMap.SweepLastUndimmed | frontend/src/components/AbujaMap.tsx:170 | after the pointer enters a run of councils, the last undimmed one entered is highlighted, whatever came before |
| AbujaMap.DrawnCouncils | frontend/src/components/AbujaMap.tsx:150-155 | drawn councils keep the council order |
| AbujaMap.DrawnCouncilsSpec | frontend/src/components/AbujaMap.tsx:150-155 | a council is drawn exactly when it has a path and a data entry |
| SituationRoom.SelectSeverity | frontend/src/pages/SituationRoom.tsx:201 | the "all" chip clears the severity and any other chip selects itself (the feed it then shows is stated by ChipCountIsFeedLength and UnknownSeverityShowsNothing) |
| SituationRoom.FilteredIncidents | frontend/src/pages/SituationRoom.tsx:27-30 | every incident, or those of the selected severity; stated by FilteredIncidentsSpec |
| SituationRoom.FilteredIncidentsSpec | frontend/src/pages/SituationRoom.tsx:27-30 | no severity shows every incident; a severity shows exactly its incidents, in order |
| SituationRoom.UnknownSeverityShowsNothing | frontend/src/pages/SituationRoom.tsx:27-30 | a severity name no incident can have shows an empty feed |
| SituationRoom.ChipCountIsFeedLength | frontend/src/pages/SituationRoom.tsx:206 | each chip's count equals the length of the feed it selects |
| SituationRoom.GetCounters | frontend/src/pages/SituationRoom.tsx:32-35 | the critical, high, active and investigating counts; stated by CountersBounded, CriticalAndHigh and ChipCountIsFeedLength |
| SituationRoom.CountersBounded | frontend/src/pages/SituationRoom.tsx:32-35 | investigating ≤ active ≤ all incidents, and critical plus high ≤ all |
| SituationRoom.CriticalAndHigh | frontend/src/pages/SituationRoom.tsx:32-33 | the critical and high counts together never exceed the incidents |
| SituationRoom.AffectedCouncils | frontend/src/pages/SituationRoom.tsx:176 | the set of the incidents' council ids; stated by AffectedCouncilsSpec |
| SituationRoom.AffectedCouncilsSpec | frontend/src/pages/SituationRoom.tsx:176 | every incident's council is counted, and there are no more councils than incidents |
| SituationRoom.Hotspots | frontend/src/pages/SituationRoom.tsx:38-47 | there are min(4, councils) hotspots |
| SituationRoom.HotspotAt | frontend/src/pages/SituationRoom.tsx:38-46 | the i-th hotspot is the i-th council of the copy sorted by incidents |
| SituationRoom.HotspotInList | frontend/src/pages/SituationRoom.tsx:38-46 | every hotspot is one of the councils |
| SituationRoom.HotspotsOrdered | frontend/src/pages/SituationRoom.tsx:40 | hotspots come in non-increasing incident order |
| SituationRoom.HotspotsLargest | frontend/src/pages/SituationRoom.tsx:39-41 | a council left out has no more incidents than the last hotspot |
| SituationRoom.HotspotsSpec | frontend/src/pages/SituationRoom.tsx:38-47 | hotspots are councils, ordered by incidents, and no council left out has more than any shown |
| SituationRoom.HotspotCountsBounded | frontend/src/pages/SituationRoom.tsx:44-45 | a hotspot's critical and active counts never exceed its incidents |
| SituationRoom.TypeBreakdown | frontend/src/pages/SituationRoom.tsx:50-58 | the counting loop produces exactly the breakdown specification |
| SituationRoom.Breakdown | frontend/src/pages/SituationRoom.tsx:50-58 | the per-type incident counts, sorted by count; the TypeBreakdown loop is proved equal to it, and BreakdownSpec, BreakdownKeys and BreakdownEntry state it |
| SituationRoom.BreakdownSpec | frontend/src/pages/SituationRoom.tsx:50-58 | each type appears once, the counts sum to the incidents, each is the number of incidents of its type, and the list is in non-increasing count order |
| SituationRoom.BreakdownKeys | frontend/src/pages/SituationRoom.tsx:52-55 | the breakdown lists exactly the types that occur |
| SituationRoom.BreakdownEntry | frontend/src/pages/SituationRoom.tsx:52-57 | each count is the number of incidents of its type, at least 1 |
| SituationRoom.BarWidths | frontend/src/pages/SituationRoom.tsx:318-319 | the first bar is full width and every bar's width lies in (0, 100] |
| SituationRoom.RiskOverview | frontend/src/pages/SituationRoom.tsx:346-349 | the councils sorted by risk level, most severe first; stated by RiskOverviewSpec |
| SituationRoom.RiskOverviewSpec | frontend/src/pages/SituationRoom.tsx:346-349 | the overview is a permutation ordered critical, high, medium, low, none, keeping input order within a level |
| LGADetailModal.ModalState.constructor | frontend/src/components/LGADetailModal.tsx:41-42 | no ward is selected and no ward data is loaded |
| LGADetailModal.ModalState.LoadWards | frontend/src/components/LGADetailModal.tsx:46-54 | an open modal stores the fetched wards (keeping the old ones when the fetch fails), a closed one empties them |
| LGADetailModal.ModalState.ClickWard | frontend/src/components/LGADetailModal.tsx:434 | clicking a ward toggles the selection and keeps the data |
| LGADetailModal.ToggleWard | frontend/src/components/LGADetailModal.tsx:434 | clicking the selected ward deselects it; clicking any other selects it (ToggleWardTwice shows two clicks cancel out) |
| LGADetailModal.ToggleWardTwice | frontend/src/components/LGADetailModal.tsx:434 | two clicks on the same ward undo each other: it ends selected exactly when it was selected before, otherwise nothing is selected |
| LGADetailModal.LgaIncidents | frontend/src/components/LGADetailModal.tsx:56-59 | no incidents without a council, otherwise that council's; stated by LgaIncidentsSpec |
| LGADetailModal.LgaIncidentsSpec | frontend/src/components/LGADetailModal.tsx:56-59 | without a council no incidents; otherwise exactly the council's incidents, in order |
| LGADetailModal.IntegrityStatsOf | frontend/src/components/LGADetailModal.tsx:61-73 | no stats for no wards; otherwise the total is the number of wards |
| LGADetailModal.IntegrityStatsBounded | frontend/src/components/LGADetailModal.tsx:64-71 | every check count is at most the total, and all wards countersigned counts them all |
| LGADetailModal.Percent | frontend/src/components/LGADetailModal.tsx:274 | `Math.round(value / total * 100)`; stated by PercentBounds and CountersignSameForAll |
| LGADetailModal.PercentBounds | frontend/src/components/LGADetailModal.tsx:274 | a rounded share lies in [0, 100], none is 0 and all is 100 |
| LGADetailModal.CountersignSameForAll | frontend/src/components/LGADetailModal.tsx:298-300 | all six parties show the same countersignature percentage, a value in [0, 100] |
| LGADetailModal.TimelinessStats | frontend/src/components/LGADetailModal.tsx:75-83 | the counting loop produces the tallies of arrival and start categories |
| LGADetailModal.TimelinessSpec | frontend/src/components/LGADetailModal.tsx:75-83 | each tally sums to the number of wards and counts each category's wards |
| LGADetailModal.CouncilPartyChart | frontend/src/components/LGADetailModal.tsx:87-94 | the chart has the six parties once each with their votes, in non-increasing order |
| LGADetailModal.StatusDataOf | frontend/src/components/LGADetailModal.tsx:96-100 | the operational, issues and cancelled slices of the units; stated by StatusDataSpec |
| LGADetailModal.StatusDataSpec | frontend/src/components/LGADetailModal.tsx:96-100 | operational plus cancelled units equal the polling units, and issues are 3% rounded down |
| LGADetailModal.RatesGuarded | frontend/src/components/LGADetailModal.tsx:127 | accreditation is 0 without registered voters and rejection is 0 without votes cast; both are percentages when counts are consistent |
| OverviewSection.OverviewOf | frontend/src/components/dashboard/OverviewSection.tsx:12-25 | the overview cards' figures; stated by OverviewShape, RatesGuarded and AgreesWithOverviewStats |
| OverviewSection.OverviewShape | frontend/src/components/dashboard/OverviewSection.tsx:12-25 | 6 councils always; reported councils ≤ listed; an empty list gives zeros |
| OverviewSection.RatesGuarded | frontend/src/components/dashboard/OverviewSection.tsx:28-34 | turnout and accreditation are 0 without registered voters, and percentages when counts are consistent |
| OverviewSection.RateBound | frontend/src/components/dashboard/OverviewSection.tsx:28-34 | a part of a whole is a percentage |
| OverviewSection.AgreesWithOverviewStats | frontend/src/components/dashboard/OverviewSection.tsx:13-25 | the section's reported, ward and compliance figures equal those of getOverviewStats on the same list |
| OverviewSection.ComplianceVariant | frontend/src/components/dashboard/OverviewSection.tsx:93 | all councils at 80 or more give the success card; all below 80 give the warning card |
| RedFlagsSection.Tiered | frontend/src/components/dashboard/RedFlagsSection.tsx:17-35 | critical above the upper bound, high between the bounds, medium otherwise |
| RedFlagsSection.TieredMonotone | frontend/src/components/dashboard/RedFlagsSection.tsx:17-35 | a larger count never gets a lower severity |
| RedFlagsSection.FlagItems | frontend/src/components/dashboard/RedFlagsSection.tsx:12-37 | there are four flag tiles |
| RedFlagsSection.TileSeverities | frontend/src/components/dashboard/RedFlagsSection.tsx:17-35 | the tiles use 5/2, 10/5, 10/5 and 8/4 as their bounds |
| RedFlagsSection.TotalFlags | frontend/src/components/dashboard/RedFlagsSection.tsx:47 | the sum of the tiles' counts; stated by TotalFlagsSum |
| RedFlagsSection.TotalFlagsSum | frontend/src/components/dashboard/RedFlagsSection.tsx:47 | the total is the sum of the four counts |
| RedFlagsSection.BadgeTier | frontend/src/components/dashboard/RedFlagsSection.tsx:56-60 | the badge is critical above 30, high above 15, medium otherwise |
| RedFlagsSection.BadgeMediumIffTotal | frontend/src/components/dashboard/RedFlagsSection.tsx:17-60 | the badge is medium exactly when the four counts add up to at most 15, whatever the tiles' severities |
| RedFlagsSection.CriticalTileAmberBadge | frontend/src/components/dashboard/RedFlagsSection.tsx:17-59 | whenever more than 5 observer denials make that tile critical and the four counts total at most 15, the badge is still medium |
| RedFlagsSection.LateStartSentence | frontend/src/components/dashboard/RedFlagsSection.tsx:112 | the late-start sentence appears exactly when late starts exceed 5 |
| SecurityIncidentsSection.TopIncidentLGAs | frontend/src/components/dashboard/SecurityIncidentsSection.tsx:33-35 | min(3, entries) hotspots are shown |
| SecurityIncidentsSection.TopAreCouncils | frontend/src/components/dashboard/SecurityIncidentsSection.tsx:33-35 | every shown entry is a council's id and incident count |
| SecurityIncidentsSection.TopAreLargest | frontend/src/components/dashboard/SecurityIncidentsSection.tsx:33-35 | an entry left out has no more incidents than the last shown |
| SecurityIncidentsSection.TopIncidentLGAsSpec | frontend/src/components/dashboard/SecurityIncidentsSection.tsx:33-35 | at most 3 entries, non-increasing, taken from the input, none left out larger |
| SecurityIncidentsSection.TopEntryBounded | frontend/src/components/dashboard/SecurityIncidentsSection.tsx:72 | every shown count lies between 0 and the maximum |
| SecurityIncidentsSection.HotspotWidth | frontend/src/components/dashboard/SecurityIncidentsSection.tsx:72-73 | a hotspot bar's width against the largest count, undefined (NaN) when every count is 0; stated by HotspotWidthsBounded |
| SecurityIncidentsSection.HotspotWidthsBounded | frontend/src/components/dashboard/SecurityIncidentsSection.tsx:72-73 | the first bar is full width, all widths are in [0, 100], and with no incidents no width is a number |
| SecurityIncidentsSection.LatestIncidents | frontend/src/components/dashboard/SecurityIncidentsSection.tsx:98-103 | the first four incidents of listed councils and of the filtered type; stated by LatestIncidentsSpec |
| SecurityIncidentsSection.LatestIncidentsSpec | frontend/src/components/dashboard/SecurityIncidentsSection.tsx:98-103 | the list is exactly the first min(4, n) of the n incidents that are in a listed council and of the filtered type when one is set, in incident order; with fewer than 4 shown, every such incident is shown |
| TurnoutCancellationsSection.SortedByTurnout | frontend/src/components/dashboard/TurnoutCancellationsSection.tsx:13 | a copy sorted by turnout, lowest first; stated by SortedByTurnoutSpec and LowestTurnout |
| TurnoutCancellationsSection.SortedByTurnoutSpec | frontend/src/components/dashboard/TurnoutCancellationsSection.tsx:13 | the sorted copy is a permutation of the input in non-decreasing turnout |
| TurnoutCancellationsSection.LowestTurnout | frontend/src/components/dashboard/TurnoutCancellationsSection.tsx:13 | the first sorted council has the lowest turnout and is the first council with it |
| TurnoutCancellationsSection.LowTurnoutWarning | frontend/src/components/dashboard/TurnoutCancellationsSection.tsx:85-89 | the warning shows exactly when the list is non-empty and the first sorted turnout is below 52, naming that council |
| TurnoutCancellationsSection.LowTurnoutWarningSpec | frontend/src/components/dashboard/TurnoutCancellationsSection.tsx:85-89 | the warning shows exactly when some council is below 52 and names a council with the lowest turnout |
| TurnoutCancellationsSection.TurnoutShade | frontend/src/components/dashboard/TurnoutCancellationsSection.tsx:66-67 | emerald from 55, amber from 50, red below |
| TurnoutCancellationsSection.ShadesAscend | frontend/src/components/dashboard/TurnoutCancellationsSection.tsx:13-75 | down the sorted list the shades never step back from emerald toward red |
| ResultsSection.RejectedShare | frontend/src/components/dashboard/ResultsSection.tsx:41-103 | the rejected share of all votes, 0 without votes; stated by RejectedShareBounds and ShareBounds |
| ResultsSection.RejectedShareBounds | frontend/src/components/dashboard/ResultsSection.tsx:41-103 | the rejected share is 0 without votes and a percentage otherwise |
| ResultsSection.ShareBounds | frontend/src/components/dashboard/ResultsSection.tsx:103 | the share is a percentage, 0 exactly when nothing is rejected and 100 exactly when nothing is valid |
| ResultsSection.ChartedTotals | frontend/src/components/dashboard/ResultsSection.tsx:32-38 | the six charted bars carry the six counted parties' totals |
| ResultsSection.ResultsChart | frontend/src/components/dashboard/ResultsSection.tsx:32-39 | the party chart of the summary's totals; stated by ResultsChartSpec and ChartedTotals |
| ResultsSection.ResultsChartSpec | frontend/src/components/dashboard/ResultsSection.tsx:32-39 | the chart is the six parties once each, in non-increasing order, summing to all party totals |
| ResultsSection.ResultsCard | frontend/src/components/dashboard/ResultsSection.tsx:29-103 | six sorted bars, total votes are valid plus rejected, and the rejected share is 0 without votes and a percentage otherwise |
| Charts.PartyBars | frontend/src/components/dashboard/ResultsSection.tsx:32-38 | six bars, each labelled party with its total, missing keys read as 0 |
| Charts.PartyChart | frontend/src/components/dashboard/ResultsSection.tsx:32-39 | the six bars sorted by votes, most first; stated by PartyChartSpec, PartyChartStable, PartyChartMember and PartyChartLabelsDistinct |
| Charts.PartyChartSpec | frontend/src/components/dashboard/ResultsSection.tsx:32-39 | sorting the bars keeps them all, orders them by votes and keeps their sum |
| Charts.PartyChartStable | frontend/src/components/dashboard/ResultsSection.tsx:39 | bars with equal votes keep their listed order |
| Charts.PartyChartMember | frontend/src/components/dashboard/ResultsSection.tsx:32-39 | a bar is in the chart exactly when it is one of the six labelled totals |
| Charts.PartyChartLabelsDistinct | frontend/src/components/dashboard/ResultsSection.tsx:33-38 | each party appears once |
| Charts.MaxValue | frontend/src/components/dashboard/SecurityIncidentsSection.tsx:72 | the maximum bounds every value and is one of them |
| Charts.MaxValueOfSorted | frontend/src/pages/SituationRoom.tsx:318 | in a list sorted by count the maximum is the first count |
| Charts.MaxValueIsHead | frontend/src/components/dashboard/SecurityIncidentsSection.tsx:72 | the maximum is the first value after sorting |
| Charts.WidthBounds | frontend/src/components/dashboard/SecurityIncidentsSection.tsx:73 | a width lies in [0, 100], is positive for a positive count and is 100 for the maximum |
| QuickFilters.GetBadges | frontend/src/components/QuickFilters.tsx:16-22 | the five badge numbers; stated by BadgeCountsBounded, IncidentBadgeCountsIncidents and HighRiskBadgeZero |
| QuickFilters.BadgeCountsBounded | frontend/src/components/QuickFilters.tsx:16-22 | high-risk and low-turnout badges never exceed the number of councils |
| QuickFilters.IncidentBadgeCountsIncidents | frontend/src/components/QuickFilters.tsx:18-25 | the incidents badge sums incidents, so it is at least the number of councils that have any |
| QuickFilters.HighRiskBadgeZero | frontend/src/components/QuickFilters.tsx:16 | the high-risk badge is 0 exactly when no council is high or critical |

## Left out

- Database queries, row scanning, JSON encoding and HTTP routing are not modelled. Ward rows, results, party rows and incident rows are passed in as sequences. A failed query, which the handlers skip, is not modelled.
- JWT validation in the middleware and `jwtDecode` in the route guard are parameters, because they are library calls. The clock used for expiry is a parameter as well.
- The fetch client, async submits, toasts and error logging are not modelled. A fetch outcome is an `Option` or `Result` parameter.
- Random data is not modelled: `generateWardData`, `Math.random` and the seeder's other generators. The seeder's draws are arbitrary values within their bounds. Its database writes are not modelled, including the ones made before a panic.
- Timers and polling are not modelled: the 30-second refresh and the situation-room clock.
- Presentation is not modelled: colours, icons, SVG paths, chart rendering and the pure display components.
- Admin.ParseInt: hexadecimal `0x` prefixes are not handled. Leading whitespace is limited to space, tab, newline and carriage return, not the whole set JavaScript skips (form feed, vertical tab, no-break and other Unicode spaces).
- Floating-point rounding is not modelled. Percentages are exact reals, and `toFixed`/`parseFloat` formatting is dropped.
- Handlers.RollUp: `int(float64(a)/float64(b)*100)` is modelled as the integer quotient of 100·a by b, which IEEE rounding may differ from by one.
- Seeder.MajorShare: the floating-point product is modelled as the floor of an exact real product.
- LGADetailModal.StatusDataOf: `Math.floor(pollingUnits * 0.03)` is modelled on exact reals.
- MockElectionData.CountersignShortfall: `Math.floor(wards * (1 - c / 100) * 0.3)` is modelled on exact reals, so where the double product falls just below a whole number (100 wards at 90% compliance gives 2.9999999999999996, floored to 2) the model gives one more (3); GetRedFlagSummary's countersignature count inherits this.
- LGADetailModal.Percent: `Math.round(value / total * 100)` is modelled as the floor of the exact share plus one half, which can differ by one from the double computation when the share lies within rounding error of a half.
- Go's `/` truncates toward zero and Dafny's is Euclidean. They agree on the non-negative operands these handlers divide.
- MockElectionData.GetOverviewStats reads the constant council list. The model takes the list as a parameter and requires it to be non-empty, as the constant is.
- MockElectionData.GetProcessIntegrityStats requires a non-zero ward total for a non-empty list, because the source divides without a guard and would produce NaN or Infinity.
- MockElectionData.GetTurnoutStats likewise requires a non-zero registered total for a non-empty list.
- JavaScript orders integer-like keys of `Object.entries` before other keys. The model keeps insertion order, which matches for the non-numeric ids and party names used.
- The backend stores party keys as upper-case names and the frontend reads lower-case keys. The model keeps each side's own keys.
- Charts.PartyBars: a missing party key reads as 0 where JavaScript would read `undefined`. The totals it reads always hold all six keys.
- Models.go's struct definitions appear only as datatypes. The static constants (`LGA_DATA`, `FCT_STATS`, the map data) are inputs.
