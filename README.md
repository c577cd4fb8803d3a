# Sales performance hub: a verified model of its business rules

The sales performance hub is a React client over a hosted Postgres database,
with one server-side function. Sales staff submit placement deals (Staff,
Contract or Service). Managers approve them or send them back for revision.
Approved deals credit gross profit (GP) to the people in each deal's BD, DT
and 360 slots. Leaderboards, team pages, a managers' analytics page, a
targets board and a projections page then report on those credits. Monthly
billing spreadsheets are uploaded and reconciled against the people on file.

This project models those business rules in Dafny and proves what they
promise. One module per source file:

| module | models |
|---|---|
| `Wrappers`, `Seqs`, `Text` | shared helpers: `Option`, filter/sum/sort over sequences, ASCII case, trim and substring search |
| `Schema` | the rows of the `deals`, `profiles` and `teams` tables and the enumerations of the generated types |
| `Credit` | the GP credit-split rule shared by four pages: the *individual* percent (the last slot a person holds wins) and the *group* percent (every slot a member holds is added), and how the two relate |
| `BillingUpload` | the `process-billing-upload` function: header normalisation, alias search, name matching, currency conversion, per-person aggregation, the delete-and-insert of records and the 401/403/400 error responses |
| `TargetsLeaderboard` | periods, monthly targets, actual and projected GP, variance, progress, colours and the individual and team tables |
| `TargetsManagement` | the admin targets editor (a class): loading, editing, the twelve saved rows and the quarter, half and year totals |
| `Leaderboard`, `Teams` | per-person and per-team GP Added, placement and renewal counts, rank icons and the by-role view |
| `ManagersAnalytics` | the analysis period, filtered deals, team, individual and role performance, monthly buckets (a loop), projection and summary cards |
| `Dashboard` | a user's status counts, approved value and rank among people with the same role |
| `Projections` | the type partition, per-deal values this year, the totals loops and the page's edit state (a class) |
| `SubmitDeal` | the deal record built step by step on submission, with the split presets |
| `Approvals` | the pending queue, approve and request-revision transitions, and the page's dialog state (a class) |
| `AnalyticsGpDetail`, `AnalyticsRenewalsDetail` | the two drill-down tables and their totals |

Money and percentages are `real`. Database rows, the current moment,
exchange rates, and the parsing of text into numbers are all parameters.
Where a loop in the source updates state, the model has a method with loop
invariants. That method is proved equal to a function, and the properties
are proved about the function.

The `ManagersAnalytics` page only shows its data to a Manager, CEO or
Admin, and the approvals queue has the same gate; both use
`Schema.HasManagerAccess`.

Three behaviours of the code that a reader might not expect:

- **Billing upload, initials in the name column.** A billing row named
  "J Smith" is not credited to "John Smith". Names match by
  case-insensitive containment in either direction, and neither "j smith"
  nor "john smith" contains the other, so the row is skipped (`BillingUpload.InitialDoesNotMatch`,
  `BillingUpload.InitialFindsNoProfile`, `BillingUpload.UnmatchedRowSkipped`).
- **Projections, row versus total.** A projections table row prefers a
  typed value over the saved adjustment. The totals prefer the saved
  adjustment. The two can therefore disagree about the same deal
  (`Projections.RowAndTotalDisagree`).
- **Managers' analytics, role rows.** Role rows in the source carry no
  renewals figure. The model's role rows share the group row type, so they
  carry one; no displayed value depends on it.

## Model

| member | source | states |
|---|---|---|
| BillingUpload.KeepLowerAlnum | supabase/functions/process-billing-upload/index.ts:41 | the result is the input with every character outside `[a-z0-9]` removed, the kept characters in their original order |
| BillingUpload.KeepLowerAlnumKeeps | supabase/functions/process-billing-upload/index.ts:41 | a string made only of `[a-z0-9]` characters is unchanged by the replace |
| BillingUpload.NormalizeColumnName | supabase/functions/process-billing-upload/index.ts:40-42 | a normalised name holds only `[a-z0-9]` characters and is no longer than the input |
| BillingUpload.NormalizeIdempotent | supabase/functions/process-billing-upload/index.ts:40-42 | normalising twice gives the same name as normalising once |
| BillingUpload.NormalizeAll | supabase/functions/process-billing-upload/index.ts:45 | the headers are normalised one by one, in order |
| Seqs.FirstIndex | supabase/functions/process-billing-upload/index.ts:167-170 | -1 exactly when no element satisfies the test; otherwise an index whose element satisfies it, with none before it doing so |
| BillingUpload.IndexOf | supabase/functions/process-billing-upload/index.ts:48 | -1 exactly when the name is absent; otherwise the first index holding it |
| BillingUpload.FirstHit | supabase/functions/process-billing-upload/index.ts:46-51 | the result is -1 or a valid header index |
| BillingUpload.FirstHitMissing | supabase/functions/process-billing-upload/index.ts:46-51 | the search returns -1 exactly when no alias is among the headers |
| BillingUpload.FirstHitEarliest | supabase/functions/process-billing-upload/index.ts:46-50 | a hit is the first header equal to the first alias, in alias order, that any header matches |
| BillingUpload.ColumnIndex | supabase/functions/process-billing-upload/index.ts:44-52 | the column found is -1 or a valid header index |
| BillingUpload.FirstHitStep | supabase/functions/process-billing-upload/index.ts:46-50 | one loop step: the alias at hand is found, or the search goes on with the remaining aliases |
| BillingUpload.FindColumnIndex | supabase/functions/process-billing-upload/index.ts:44-52 | the loop returns the same index as the alias-order search over the normalised headers |
| BillingUpload.Keys | supabase/functions/process-billing-upload/index.ts:144 | the header names of a row, in column order |
| BillingUpload.Values | supabase/functions/process-billing-upload/index.ts:161 | the cell texts of a row, in column order |
| BillingUpload.FindProfile | supabase/functions/process-billing-upload/index.ts:167-170 | no profile exactly when no name matches either way, ignoring case; otherwise the first matching profile |
| BillingUpload.NamesMatchSymmetric | supabase/functions/process-billing-upload/index.ts:167-170 | it does not matter which of the two names contains the other |
| BillingUpload.NamesMatchIgnoresCase | supabase/functions/process-billing-upload/index.ts:167-170 | lower-casing either name first does not change whether they match |
| BillingUpload.RowName | supabase/functions/process-billing-upload/index.ts:162 | the name cell trimmed at both ends (so neither end is white space), and "" when the name column lies outside the row |
| BillingUpload.RowCurrency | supabase/functions/process-billing-upload/index.ts:177 | "GBP" when there is no currency column, when the column lies outside the row or when the cell is empty; otherwise the cell trimmed and upper-cased |
| BillingUpload.RowCurrencyUpperCase | supabase/functions/process-billing-upload/index.ts:177 | the currency code has no lower-case letter |
| BillingUpload.RowAmount | supabase/functions/process-billing-upload/index.ts:178-180 | 0 when the column is absent or the cell is empty; otherwise the parsed cell |
| BillingUpload.ProcessRowOutcome | supabase/functions/process-billing-upload/index.ts:161-185 | a row that is not skipped has a non-empty name that matches a profile; a failed row names a currency other than GBP whose rate cannot be fetched |
| BillingUpload.ConvertToGbp | supabase/functions/process-billing-upload/index.ts:24-38 | GBP amounts pass through unchanged; another currency fails exactly when its rate cannot be fetched, else the amount times the rate |
| BillingUpload.UnmatchedRowSkipped | supabase/functions/process-billing-upload/index.ts:162-175 | a row whose name is empty, or matches no profile, credits nobody |
| BillingUpload.CreditGoesToFirstMatch | supabase/functions/process-billing-upload/index.ts:167-188 | a credited row goes to the first profile whose name matches the row's name |
| BillingUpload.GbpRowUnchanged | supabase/functions/process-billing-upload/index.ts:177-185 | a matched GBP row credits its parsed revenue, GP and NP unconverted |
| BillingUpload.NoCurrencyColumnIsGbp | supabase/functions/process-billing-upload/index.ts:177 | without a currency column every row is read as GBP |
| BillingUpload.Credit | supabase/functions/process-billing-upload/index.ts:188-195 | a credit adds to the profile's running totals, starting from zero, leaves every other profile alone and keeps the map consistent |
| BillingUpload.CreditInPlace | supabase/functions/process-billing-upload/index.ts:189-195 | the field-by-field update of the existing entry equals one credit |
| BillingUpload.FoldCons | supabase/functions/process-billing-upload/index.ts:160-196 | a skipped row changes nothing, a failed lookup aborts the loop, a credited row is applied before the rest |
| BillingUpload.Outcomes | supabase/functions/process-billing-upload/index.ts:160-196 | one outcome per row, each the loop body applied to that row |
| BillingUpload.FoldSums | supabase/functions/process-billing-upload/index.ts:189-195 | when the loop completes, each profile's totals are its starting totals plus the sum of the rows credited to it |
| BillingUpload.FoldKeys | supabase/functions/process-billing-upload/index.ts:189-191 | the loop keeps the map consistent, and its keys are the starting keys plus every credited profile |
| BillingUpload.FoldFails | supabase/functions/process-billing-upload/index.ts:183-185 | the loop aborts exactly when some row's rate lookup fails |
| BillingUpload.AggregatedProperties | supabase/functions/process-billing-upload/index.ts:157-196 | an upload fails exactly when a row's rate lookup fails; otherwise the map holds exactly the credited profiles with their summed amounts |
| BillingUpload.ReadRow | supabase/functions/process-billing-upload/index.ts:161-185 | the loop body computes the row's outcome |
| BillingUpload.AggregateRows | supabase/functions/process-billing-upload/index.ts:157-196 | the loop over the rows computes the aggregation of the upload |
| BillingUpload.BuildRecords | supabase/functions/process-billing-upload/index.ts:209-217 | one record per aggregated profile, in insertion order, carrying its totals, the month, the year and the upload id |
| BillingUpload.RemoveFirst | supabase/functions/process-billing-upload/index.ts:79 | a header starting with the prefix loses it; a header without it is unchanged |
| BillingUpload.RemoveFirstOccurrence | supabase/functions/process-billing-upload/index.ts:79 | wherever the first occurrence of the prefix lies, exactly that occurrence is cut out and the text on both sides of it is kept |
| BillingUpload.ResolveColumns | supabase/functions/process-billing-upload/index.ts:144-149 | each of the five logical columns (name, revenue, GP, NP, currency) is the column its own alias list resolves to |
| BillingUpload.Handle | supabase/functions/process-billing-upload/index.ts:54-246 | 401 exactly for a missing or empty header; every outcome other than a processed upload or a failed insert leaves the table unchanged |
| BillingUpload.Ingest | supabase/functions/process-billing-upload/index.ts:129-234 | ingest ends in one of its five outcomes, and only an insert changes the table |
| BillingUpload.AggregatedConsistent | supabase/functions/process-billing-upload/index.ts:158-196 | a completed aggregation lists each profile once, and exactly the profiles in the map |
| BillingUpload.ProcessBillingUpload | supabase/functions/process-billing-upload/index.ts:54-246 | the step-by-step handler gives the same outcome and table as the request-to-outcome function |
| BillingUpload.HandleAuthentication | supabase/functions/process-billing-upload/index.ts:71-87 | status 401 exactly when there is no header, the header is empty, or its token does not verify; a missing or empty header is reported as missing |
| BillingUpload.Status | supabase/functions/process-billing-upload/index.ts:71-243 | 401 exactly for a missing header or an invalid token, 403 exactly for an unreadable profile or a forbidden role, 200 exactly for a processed upload, and 400 for every other outcome |
| BillingUpload.HandleAuthorisation | supabase/functions/process-billing-upload/index.ts:89-110 | status 403 exactly when an authenticated caller has no readable profile or a role other than Admin, Manager or CEO |
| BillingUpload.HandleParameters | supabase/functions/process-billing-upload/index.ts:112-116 | missing parameters are reported exactly for an authorised request with a falsy upload id, month or year |
| BillingUpload.IngestRejects | supabase/functions/process-billing-upload/index.ts:129-155 | an empty upload is invalid; a non-empty one without a name column is refused |
| BillingUpload.HandleRejectsUpload | supabase/functions/process-billing-upload/index.ts:127-155 | a non-array or empty upload, or one without a name column, is refused and the table is untouched |
| BillingUpload.HandleReachesIngest | supabase/functions/process-billing-upload/index.ts:112-234 | a processed request was authorised, had its parameters and a stored row array, and was ingested |
| BillingUpload.IngestProcessed | supabase/functions/process-billing-upload/index.ts:198-234 | a successful ingest inserted exactly one record per aggregated profile and reports that count |
| BillingUpload.HandleProcessed | supabase/functions/process-billing-upload/index.ts:198-234 | a processed request was authorised; its table is the old one with the upload's records deleted (unless the delete failed) and one record per aggregated profile appended, and the reported count is that number of records |
| BillingUpload.IngestIgnoresDelete | supabase/functions/process-billing-upload/index.ts:201-206 | whether the delete fails does not change the outcome of an ingest |
| BillingUpload.DeleteFailureOnlyLogged | supabase/functions/process-billing-upload/index.ts:206 | a failed delete is only logged: the request's outcome is the same |
| BillingUpload.WithoutUploadConcat | supabase/functions/process-billing-upload/index.ts:201-204 | deleting an upload's records from two tables is deleting them from each |
| BillingUpload.OfUploadConcat | supabase/functions/process-billing-upload/index.ts:201-204 | selecting an upload's records from two tables is selecting them from each |
| BillingUpload.OfUploadAll | supabase/functions/process-billing-upload/index.ts:209-217 | records all stamped with the upload id are all selected and none is kept by the delete |
| BillingUpload.ReplaceIsExact | supabase/functions/process-billing-upload/index.ts:200-221 | after the delete and insert, the upload's records are exactly the new ones, and every other record is untouched |
| BillingUpload.DeletedIsGone | supabase/functions/process-billing-upload/index.ts:201-204 | after the delete no record of the upload is left, and deleting again changes nothing |
| BillingUpload.BuiltRecordsOfUpload | supabase/functions/process-billing-upload/index.ts:209-217 | every built record carries the upload id |
| BillingUpload.HandleIdempotent | supabase/functions/process-billing-upload/index.ts:200-221 | processing the same upload again, when the delete works, gives the same outcome and the same table |
| BillingUpload.InitialFindsNoProfile | supabase/functions/process-billing-upload/index.ts:167-175 | a row named "J Smith" finds no profile named "John Smith" |
| BillingUpload.InitialDoesNotMatch | supabase/functions/process-billing-upload/index.ts:168-169 | neither of "john smith" and "j smith" contains the other |
| BillingUpload.FullNameMatches | supabase/functions/process-billing-upload/index.ts:167-170 | a row named exactly like the profile finds it |
| Credit.IndividualPercent | src/pages/Leaderboard.tsx:44-47 | the last slot the person holds decides (360 over DT over BD), a null percent reads as 0, and no slot gives 0 |
| Credit.GroupPercent | src/pages/Leaderboard.tsx:106-109 | 0 when no member holds a slot; with non-negative percents, never negative and at least the percent of every slot a member holds |
| Credit.IndividualCredit | src/pages/Leaderboard.tsx:48 | a person who holds no slot of the deal is credited nothing |
| Credit.GroupCredit | src/pages/Leaderboard.tsx:110 | a group none of whose members holds a slot of the deal is credited nothing |
| Credit.IndividualGpAdded | src/pages/Leaderboard.tsx:41-49 | 0 when every deal is a renewal or lacks the person; never negative over deals with non-negative values and percents |
| Credit.GroupGpAdded | src/pages/Leaderboard.tsx:104-111 | 0 when every deal is a renewal or lacks every member; never negative over deals with non-negative values and percents |
| Credit.TeamMembers | src/pages/ManagersAnalytics.tsx:112 | exactly the profiles whose team is the given team |
| Credit.ApprovedOnly | src/pages/Leaderboard.tsx:24-27 | exactly the Approved deals |
| Credit.UserDeals | src/pages/Leaderboard.tsx:34-38 | exactly the deals in which the person holds some slot |
| Credit.GroupDeals | src/pages/Leaderboard.tsx:98-102 | exactly the deals in which some member holds some slot |
| Credit.NewDeals | src/pages/Leaderboard.tsx:42 | exactly the non-renewal deals |
| Credit.Renewals | src/pages/Leaderboard.tsx:55 | exactly the renewal deals |
| Credit.NewAndRenewalsPartition | src/pages/Leaderboard.tsx:52-55 | new placements and renewals together are the deals, as a multiset, so the two counts add up to the number of deals |
| Credit.IndividualGpAddedOfUserDeals | src/pages/Leaderboard.tsx:34-49 | summing over the person's deals only gives the same GP Added as summing over every deal |
| Credit.GroupGpAddedOfGroupDeals | src/pages/Leaderboard.tsx:98-113 | summing over the group's deals only gives the same GP Added as summing over every deal |
| Credit.EmptyGroupEarnsNothing | src/pages/Leaderboard.tsx:95-113 | a team without members earns no GP |
| Credit.IndividualWithinOwnGroup | src/pages/Leaderboard.tsx:44-47 | a person's individual percent never exceeds that of the one-person group, and equals it unless they hold two or more slots |
| Credit.GroupIsSumOfMembers | src/pages/Leaderboard.tsx:108-111 | for members listed once, the group percent is the sum of what each member holds |
| Credit.GroupCoversMembers | src/pages/Leaderboard.tsx:44-47 | the members' individual percents add up to at most the group percent, and exactly to it when no member holds two slots |
| Credit.IndividualBelowHeld | src/pages/Leaderboard.tsx:44-47 | each member's individual percent is at most what they hold, summed over the members |
| Credit.TwoSlotsCreditedDifferently | src/pages/Leaderboard.tsx:44-47 | a person holding BD 70% and DT 30% of a 1000 deal is credited 300 individually, while their one-person team is credited 1000 |
| Credit.MembersGpAddedSplit | src/pages/Leaderboard.tsx:41-49 | the members' GP Added is the first deal's credits plus the rest |
| Credit.MembersDealCreditScales | src/pages/Leaderboard.tsx:48 | a new deal's member credits are its value times the summed individual percents |
| Credit.MembersDealCreditOutside | src/pages/Leaderboard.tsx:34-42 | a renewal, or a deal without any member, credits the members nothing |
| Credit.GroupGpAddedCoversMembers | src/pages/Leaderboard.tsx:41-49 | over non-negative deals, a group's GP Added is at least the sum of its members' individual GP Added |
| Credit.DealCreditCovered | src/pages/Leaderboard.tsx:105-113 | for one deal, the members' individual credits stay within the group's credit |
| Credit.NewDealCreditCovered | src/pages/Leaderboard.tsx:105-113 | for one new deal, the members' individual credits stay within the group's credit |
| Credit.MembersWithinGroupPercent | src/pages/Leaderboard.tsx:108-111 | the members' individual percents add up to at most the group percent |
| Credit.MembersGpAddedEmpty | src/pages/Leaderboard.tsx:43 | with no deals, the members' GP Added is 0 |
| Credit.ScaleMonotone | src/pages/Leaderboard.tsx:48 | a larger percent credits at least as much of a non-negative value |
| Leaderboard.TeamLabel | src/pages/Leaderboard.tsx:62 | "No Team" exactly when the joined team name is missing, empty or itself "No Team"; otherwise the team's name |
| Leaderboard.ActiveProfiles | src/pages/Leaderboard.tsx:16-19 | exactly the active profiles |
| Leaderboard.UserDealsOf | src/pages/Leaderboard.tsx:24-38 | exactly the approved deals in which the person holds some slot |
| Leaderboard.UserMetrics | src/pages/Leaderboard.tsx:32-66 | a row carries the profile's id, role and team label; its GP Added is the individual credit over all approved deals; its new placements count the person's non-renewal deals and its renewals count their renewal deals |
| Leaderboard.UserEntries | src/pages/Leaderboard.tsx:32-67 | one row per profile, in profile order |
| Leaderboard.IndividualRanking | src/pages/Leaderboard.tsx:69-70 | the rows of the active profiles, rearranged, largest GP Added first |
| Leaderboard.ByRole | src/pages/Leaderboard.tsx:153-155 | exactly the rows of the role, and a ranked board gives a ranked role list; a one-row board keeps its row exactly when it has the role |
| Leaderboard.ByRoleConcat | src/pages/Leaderboard.tsx:153-155 | the role's rows of `a + b` are the role's rows of `a` followed by those of `b`, so order and repeats are kept |
| Leaderboard.RankIcon | src/pages/Leaderboard.tsx:132-137 | the trophy goes to index 0 only, the medal to index 1 only and the award to index 2 only; every later row is numbered index + 1 |
| Leaderboard.RankBadgesDistinct | src/pages/Leaderboard.tsx:132-137 | no two rows share a badge |
| Teams.TeamDeals | src/pages/Teams.tsx:20-37 | exactly the approved deals in which some member holds some slot |
| Teams.TeamMetrics | src/pages/Teams.tsx:29-62 | a row carries the team's id, name and member count; its GP Added is the group credit over all approved deals; its new placements count the team's non-renewal deals and its renewals count its renewal deals |
| Teams.TeamEntries | src/pages/Teams.tsx:29-63 | one row per team, in team order |
| Teams.TeamsRanking | src/pages/Teams.tsx:65 | one row per team, rearranged, largest GP Added first |
| Teams.EmptyTeam | src/pages/Teams.tsx:30-57 | a team without members has no GP Added, no deals and a member count of 0 |
| Teams.TeamCoversMembers | src/pages/Teams.tsx:40-48 | over non-negative deals, a team's GP Added is at least the sum of its members' individual GP Added on the Leaderboard |
| Dashboard.SubmittedBy | src/pages/Dashboard.tsx:45-48 | exactly the deals the person submitted |
| Dashboard.StatOf | src/pages/Dashboard.tsx:81-89 | a person's total is the number of deals they submitted, their approved count the number of those that are Approved and their pending count the number that are Submitted or Under Review; the value adds up their approved deals only |
| Dashboard.RankIn | src/pages/Dashboard.tsx:97 | 0 exactly when the person is not in the list; otherwise the 1-based position of their first entry |
| Dashboard.RankedAheadDesc | src/pages/Dashboard.tsx:96-101 | on a measure sorted largest first, everyone ranked ahead of the person has at least their figure and everyone behind has at most it |
| Dashboard.RankedAheadAsc | src/pages/Dashboard.tsx:103-105 | on pending deals, sorted smallest first, everyone ranked ahead of the person has at most their count and everyone behind has at least it |
| Dashboard.RankedIffListed | src/pages/Dashboard.tsx:96-109 | a person has a rank in a sorted copy exactly when the unsorted figures list them |
| Dashboard.RankingsOf | src/pages/Dashboard.tsx:92-116 | each of the four ranks is out of the number of same-role people, and all four are non-zero exactly when the person is among them |
| Dashboard.StatsOf | src/pages/Dashboard.tsx:81-90 | one figure set per same-role id, in id order |
| Dashboard.StatsListIds | src/pages/Dashboard.tsx:81-90 | the figures list a person exactly when their id is among the same-role ids |
| Dashboard.SameRoleIds | src/pages/Dashboard.tsx:65-71 | exactly the ids of the profiles with the person's role |
| Dashboard.IdsOfSameRole | src/pages/Dashboard.tsx:65-71 | the ids of the filtered profiles are exactly the ids of the profiles with the role |
| Dashboard.SameRoleDeals | src/pages/Dashboard.tsx:74-77 | exactly the deals submitted by one of those ids |
| Dashboard.DashboardStats | src/pages/Dashboard.tsx:44-128 | the total is the number of deals the user submitted, and the approved, pending and draft counts are the numbers of those that are Approved, Submitted or Under Review, and Draft; the value adds up approved deals only; without a role, or after a failed same-role query, every rank stays 0 of 0 |
| Dashboard.SameRoleRankings | src/pages/Dashboard.tsx:63-116 | each of the four ranks is out of the number of same-role profiles, and all four are non-zero exactly when the person has a profile with that role |
| Dashboard.RankedWhenProfiled | src/pages/Dashboard.tsx:63-116 | a person whose profile has the role is ranked between 1 and the number of same-role profiles on all four measures |
| Dashboard.RankingSuffix | src/pages/Dashboard.tsx:168-173 | "st", "nd" and "rd" exactly for ranks 1, 2 and 3, and "th" for every other rank |
| ManagersAnalytics.StartMonth | src/pages/ManagersAnalytics.tsx:69-94 | the period starts in the current month, the first month of the current quarter or half, or January, never after the current month |
| ManagersAnalytics.PeriodStart | src/pages/ManagersAnalytics.tsx:74-93 | the period starts on day 1 of its start month in the current year, no later than now |
| ManagersAnalytics.PeriodsNest | src/pages/ManagersAnalytics.tsx:76-91 | a wider period starts no later: year, half, quarter, month |
| ManagersAnalytics.FilteredDeals | src/pages/ManagersAnalytics.tsx:97-105 | exactly the approved deals created between the start of the period and now, both ends included |
| ManagersAnalytics.GroupPerformance | src/pages/ManagersAnalytics.tsx:115-136 | a row carries the group's name and size; its GP Added is the group credit over the filtered deals; its deal count is the number of the group's non-renewal deals and its renewal count the number of its renewals |
| ManagersAnalytics.TeamRows | src/pages/ManagersAnalytics.tsx:111-136 | one row per team, whose members are the profiles carrying its id |
| ManagersAnalytics.TeamPerformance | src/pages/ManagersAnalytics.tsx:108-138 | the team rows, rearranged, largest GP Added first |
| ManagersAnalytics.PersonPerformance | src/pages/ManagersAnalytics.tsx:149-172 | a row carries the person's name and role; its GP Added is the individual credit over the filtered deals; its deal count is the number of the person's non-renewal deals and its renewal count the number of their renewals |
| ManagersAnalytics.PersonRows | src/pages/ManagersAnalytics.tsx:149-172 | one row per profile, in profile order |
| ManagersAnalytics.SelectedProfiles | src/pages/ManagersAnalytics.tsx:144-147 | everyone for "all", otherwise exactly the members of the selected team |
| ManagersAnalytics.IndividualPerformance | src/pages/ManagersAnalytics.tsx:141-174 | the selected people's rows, rearranged, largest GP Added first |
| ManagersAnalytics.RoleProfiles | src/pages/ManagersAnalytics.tsx:183 | exactly the profiles of the role |
| ManagersAnalytics.RoleRows | src/pages/ManagersAnalytics.tsx:180-207 | one row per role, in the order BD, DT, 360, Manager, CEO, Admin |
| ManagersAnalytics.RolePerformance | src/pages/ManagersAnalytics.tsx:177-209 | a row for every role that has a profile, every row with members, largest GP Added first; every row is a role row, and the rows are exactly the six role rows that have members, rearranged |
| ManagersAnalytics.KeptRowsAreRoleRows | src/pages/ManagersAnalytics.tsx:206-208 | every row kept by the member filter is the row of some role |
| ManagersAnalytics.RolesKept | src/pages/ManagersAnalytics.tsx:208 | a role's row survives the member filter exactly when some profile has the role |
| ManagersAnalytics.RoleListed | src/pages/ManagersAnalytics.tsx:180-182 | every role has its row among the six |
| ManagersAnalytics.RoleHasMembers | src/pages/ManagersAnalytics.tsx:206-208 | a role's row has members exactly when some profile has the role |
| ManagersAnalytics.MonthlyTrends | src/pages/ManagersAnalytics.tsx:212-233 | the loop over the filtered deals builds the same buckets, in the same key order, as the deal-by-deal specification |
| ManagersAnalytics.StepEffect | src/pages/ManagersAnalytics.tsx:217-232 | one deal creates its month's bucket if missing (listed last), adds its value and one deal if it is new, and leaves every other bucket alone |
| ManagersAnalytics.TrendsKeys | src/pages/ManagersAnalytics.tsx:217-227 | there is a bucket exactly for each month some deal, renewal or not, was created in, and each is listed once |
| ManagersAnalytics.TrendsBuckets | src/pages/ManagersAnalytics.tsx:229-232 | each bucket holds the total value and the number of its month's new deals |
| ManagersAnalytics.MonthsOfAbsent | src/pages/ManagersAnalytics.tsx:229-232 | a month no deal was created in has no value and no deals |
| ManagersAnalytics.StepAddsValue | src/pages/ManagersAnalytics.tsx:229-232 | one deal adds its value to the bucket totals when it is new, and nothing otherwise |
| ManagersAnalytics.BucketsAddUp | src/pages/ManagersAnalytics.tsx:212-236 | the buckets together hold the value of every new deal, none lost or counted twice |
| ManagersAnalytics.Projection | src/pages/ManagersAnalytics.tsx:239-240 | without buckets the projection is 0 |
| ManagersAnalytics.ProjectionFromTotal | src/pages/ManagersAnalytics.tsx:239-247 | with n buckets (1 <= n <= number of deals) and new-deal total T, the projection is T + (T / n) * (12 - current month) |
| ManagersAnalytics.KeysFewerThanDeals | src/pages/ManagersAnalytics.tsx:217-227 | there are no more buckets than deals |
| ManagersAnalytics.SummaryOf | src/pages/ManagersAnalytics.tsx:286-290 | the GP card is the new-deal total; the deals card counts the non-renewal filtered deals and the renewals card counts the renewals |
| ManagersAnalytics.NewValueIsNewTotal | src/pages/ManagersAnalytics.tsx:286-288 | the filter-then-sum total equals the running total of new-deal values |
| Projections.YearDeals | src/pages/Projections.tsx:35-47 | exactly the approved deals submitted in the year |
| Projections.TypesPartition | src/pages/Projections.tsx:114-116 | service, staff and contract deals split the year's deals: each deal is in exactly one list |
| Projections.FindAdjustment | src/pages/Projections.tsx:119-121 | no adjustment exactly when none has the deal's id; otherwise the first one that does |
| Projections.TotalValue | src/pages/Projections.tsx:159-161 | the totals count a set, non-zero saved adjustment first, else a non-empty typed value, else 0 |
| Projections.RowValue | src/pages/Projections.tsx:270-272 | the table row shows any typed value (even an empty one) first, else a set saved adjustment, else 0 |
| Projections.RemainingValue | src/pages/Projections.tsx:268-273 | the remaining value and the value this year add up to the submission value |
| Projections.RowAndTotalDisagree | src/pages/Projections.tsx:159-161 | with 500 saved and 800 typed on a 1000 deal, the row shows 800 (200 remaining) while the total counts 500 |
| Projections.NothingProjectedWithoutInput | src/pages/Projections.tsx:158-172 | without adjustments or edits, service and contract deals project nothing |
| Projections.AdjustedTotalConcat | src/pages/Projections.tsx:158-162 | the services and contracts total over two lists of deals is the sum of the two totals |
| Projections.BillingsGp | src/pages/Projections.tsx:147-150 | no billing records count as 0 |
| Projections.AdjustedTotalAppend | src/pages/Projections.tsx:158-162 | each loop step adds one deal's value this year to the running total |
| Projections.SumValuesThisYear | src/pages/Projections.tsx:158-172 | the services and contracts loops sum each deal's value this year, the saved adjustment first |
| Projections.SumConvertedValues | src/pages/Projections.tsx:164-166 | the staff loop sums the converted values, null as 0 |
| Projections.ProjectionTotals | src/pages/Projections.tsx:153-181 | each type's total is its loop's sum, billings are the records' GP, and the overall total adds all four |
| Projections.ProjectionsPage.constructor | src/pages/Projections.tsx:18 | the page starts with no edits |
| Projections.ProjectionsPage.HandleValueChange | src/pages/Projections.tsx:124-132 | sets one field of one deal's edits (starting from no edits), keeping its other field and every other deal's edits |
| Projections.ProjectionsPage.SaveRequest | src/pages/Projections.tsx:135-144 | nothing is sent without edits for the deal; the payload carries the deal id and the page's year; a typed value is sent parsed, an empty or missing one as null; the mobilisation date is sent for contracts only |
| Projections.SaveThenAgree | src/pages/Projections.tsx:78-101 | once a non-zero typed value is saved and the edits are discarded, the row and the totals both show the saved value |
| Projections.ProjectionsPage.OnSaveSuccess | src/pages/Projections.tsx:94-101 | a successful save discards every edit |
| TargetsLeaderboard.MonthsForPeriod | src/components/leaderboard/TargetsLeaderboard.tsx:61-73 | a month is itself; a valid quarter, half or year gives distinct calendar months between 1 and 12 |
| TargetsLeaderboard.PeriodsPartitionYear | src/components/leaderboard/TargetsLeaderboard.tsx:61-73 | for each kind of period, every month lies in exactly one valid period |
| TargetsLeaderboard.PipelineDeals | src/components/leaderboard/TargetsLeaderboard.tsx:40-44 | exactly the year's Submitted, Under Review and Approved deals |
| TargetsLeaderboard.ApprovedDeals | src/components/leaderboard/TargetsLeaderboard.tsx:49-53 | exactly the year's Approved deals |
| TargetsLeaderboard.ApprovedWithinPipeline | src/components/leaderboard/TargetsLeaderboard.tsx:40-53 | every deal counted as actual is also in the pipeline |
| TargetsLeaderboard.ProjectedValue | src/components/leaderboard/TargetsLeaderboard.tsx:110-112 | a truthy estimated opportunity is used, else the converted value |
| TargetsLeaderboard.OtherTargetsIgnored | src/components/leaderboard/TargetsLeaderboard.tsx:79-80 | target rows of other people, or of months outside the period, add nothing to the target |
| TargetsLeaderboard.OtherDealsIgnored | src/components/leaderboard/TargetsLeaderboard.tsx:83-115 | deals the person holds no slot in, or submitted outside the period, add nothing to actual or projected GP |
| TargetsLeaderboard.PeriodActualNonNegative | src/components/leaderboard/TargetsLeaderboard.tsx:89-95 | with non-negative values and percents, the actual GP is never negative |
| TargetsLeaderboard.CalculateMetrics | src/components/leaderboard/TargetsLeaderboard.tsx:75-76 | zeros before the data has loaded |
| TargetsLeaderboard.NoActivityNoMetrics | src/components/leaderboard/TargetsLeaderboard.tsx:75-118 | a person with no target row and no deal in the period scores zero target, actual and projected |
| TargetsLeaderboard.EmptyPeriodNoMetrics | src/components/leaderboard/TargetsLeaderboard.tsx:75-118 | over an empty list of months everyone scores zero |
| TargetsLeaderboard.TargetSplits | src/components/leaderboard/TargetsLeaderboard.tsx:79-80 | the target over months split into two disjoint parts is the sum of the two parts' targets |
| TargetsLeaderboard.DealSumsSplit | src/components/leaderboard/TargetsLeaderboard.tsx:83-115 | likewise the actual and the projected GP |
| TargetsLeaderboard.MetricsSplit | src/components/leaderboard/TargetsLeaderboard.tsx:75-118 | a period's metrics are the sum of the metrics of two disjoint periods that make it up |
| TargetsLeaderboard.YearSplitsIntoHalves | src/components/leaderboard/TargetsLeaderboard.tsx:68-71 | the year's months are those of its two halves, which share none |
| TargetsLeaderboard.HalfSplitsIntoQuarters | src/components/leaderboard/TargetsLeaderboard.tsx:65-69 | each half's months are those of its two quarters, which share none |
| TargetsLeaderboard.YearAddsUp | src/components/leaderboard/TargetsLeaderboard.tsx:61-118 | a person's yearly target, actual and projection are those of the two halves added, and each half's those of its two quarters |
| TargetsLeaderboard.UninvolvedDealsIgnored | src/components/leaderboard/TargetsLeaderboard.tsx:83-102 | a deal the person holds no slot in, or submitted outside the period (or with no month), adds nothing to actual or projected |
| TargetsLeaderboard.MembersMetricsConcat | src/components/leaderboard/TargetsLeaderboard.tsx:130-135 | the members' summed metrics split like the member list |
| TargetsLeaderboard.CalculateTeamMetrics | src/components/leaderboard/TargetsLeaderboard.tsx:120-138 | zeros before the data has loaded; otherwise the loop adds up the metrics of the profiles carrying the team id, and counts them |
| TargetsLeaderboard.Variance | src/components/leaderboard/TargetsLeaderboard.tsx:144-145 | 0 without a positive target; otherwise positive exactly above target and negative exactly below it |
| TargetsLeaderboard.Progress | src/components/leaderboard/TargetsLeaderboard.tsx:155 | 0 without a positive target; otherwise at least 100 exactly when the actual reaches the target |
| TargetsLeaderboard.VarianceIsProgressLess100 | src/components/leaderboard/TargetsLeaderboard.tsx:144-155 | with a positive target, variance is progress less 100 |
| TargetsLeaderboard.VarianceColor | src/components/leaderboard/TargetsLeaderboard.tsx:196-200 | green exactly above +5, red exactly below -5, muted in between (both ends included) |
| TargetsLeaderboard.VarianceIcon | src/components/leaderboard/TargetsLeaderboard.tsx:190-194 | trending up exactly above +5, trending down exactly below -5, flat otherwise |
| TargetsLeaderboard.IconMatchesColor | src/components/leaderboard/TargetsLeaderboard.tsx:190-200 | the variance icon and colour always agree |
| TargetsLeaderboard.MakeStanding | src/components/leaderboard/TargetsLeaderboard.tsx:142-156 | a row carries its metrics, with the variance and projected variance against target and the progress |
| TargetsLeaderboard.IndividualStandings | src/components/leaderboard/TargetsLeaderboard.tsx:142-156 | one row per profile, in profile order, with that person's metrics |
| TargetsLeaderboard.IndividualTable | src/components/leaderboard/TargetsLeaderboard.tsx:142-157 | empty before the data has loaded; otherwise one row per profile, rearranged, highest actual first |
| TargetsLeaderboard.TeamIdsOf | src/components/leaderboard/TargetsLeaderboard.tsx:160 | exactly the set, non-empty team ids of the profiles |
| TargetsLeaderboard.Dedup | src/components/leaderboard/TargetsLeaderboard.tsx:160 | no repeats, and the same elements as the input |
| TargetsLeaderboard.DistinctTeamIds | src/components/leaderboard/TargetsLeaderboard.tsx:160 | each non-empty team id of some profile, listed once |
| TargetsLeaderboard.TeamStandings | src/components/leaderboard/TargetsLeaderboard.tsx:161-174 | one row per team id, with the team's summed metrics and member count |
| TargetsLeaderboard.TeamTable | src/components/leaderboard/TargetsLeaderboard.tsx:159-175 | empty before the data has loaded; otherwise one row per distinct team id, rearranged, highest actual first |
| TargetsManagement.TargetMap | src/components/admin/TargetsManagement.tsx:64-70 | every loaded row's month has an entry, and every entry comes from some row |
| TargetsManagement.LastRowWins | src/components/admin/TargetsManagement.tsx:67-69 | a month holds the target of the last row for that month |
| TargetsManagement.RangeSumSplit | src/components/admin/TargetsManagement.tsx:126-140 | a run of months' total is the sum of the totals of any two consecutive parts |
| TargetsManagement.RangeSumRemove | src/components/admin/TargetsManagement.tsx:122-124 | dropping one month's entry lowers a range's total by that entry exactly when the month is in range |
| TargetsManagement.SumValuesIsRangeSum | src/components/admin/TargetsManagement.tsx:122-124 | when every entry's month lies in a range, the total of all entries is the range's total |
| TargetsManagement.WholeYearSum | src/components/admin/TargetsManagement.tsx:122-124 | with every entry's month in 1..12, the sum of the entries is the January-to-December total |
| TargetsManagement.MonthRows | src/components/admin/TargetsManagement.tsx:89-94 | one row per month 1..n, in order, for the person and year, a missing month as 0 |
| TargetsManagement.TargetsEditor.constructor | src/components/admin/TargetsManagement.tsx:31-34 | no person selected, the given year, no targets and no loaded rows |
| TargetsManagement.TargetsEditor.LoadTargets | src/components/admin/TargetsManagement.tsx:56-76 | with data, the loaded rows and the month map built from them; without, both cleared; the selection is unchanged |
| TargetsManagement.TargetsEditor.SelectUser | src/components/admin/TargetsManagement.tsx:161 | the selected person becomes the picked one; the year, the targets and the loaded rows stay as they were |
| TargetsManagement.TargetsEditor.SelectYear | src/components/admin/TargetsManagement.tsx:177 | the selected year becomes the picked one; the person, the targets and the loaded rows stay as they were |
| TargetsManagement.TargetsEditor.HandleTargetChange | src/components/admin/TargetsManagement.tsx:78-81 | only the edited month changes, to 0 for an empty entry and to the parsed value otherwise |
| TargetsManagement.TargetsEditor.UpsertRows | src/components/admin/TargetsManagement.tsx:83-94 | nothing is saved exactly when no person is selected; otherwise twelve rows, months 1 to 12, each with the month's target or 0 |
| TargetsManagement.TargetsEditor.YearlyTotal | src/components/admin/TargetsManagement.tsx:122-124 | with every month in 1..12, the sum of all entries is the total over months 1 to 12 |
| TargetsManagement.TargetsEditor.QuarterlyTotal | src/components/admin/TargetsManagement.tsx:126-131 | the total over the quarter's three months |
| TargetsManagement.TargetsEditor.HalfYearlyTotal | src/components/admin/TargetsManagement.tsx:133-141 | the total over months 1-6 for half 1, over months 7-12 for any other number |
| TargetsManagement.TotalsAgree | src/components/admin/TargetsManagement.tsx:122-141 | with every month in 1..12, two quarters make a half and the two halves make the yearly total |
| TargetsManagement.SaveThenLoad | src/components/admin/TargetsManagement.tsx:83-110 | loading the twelve saved rows gives back every month's target, a missing one as 0 |
| SubmitDeal.Preset | src/pages/SubmitDeal.tsx:69-80 | each split choice's fixed columns; the percentages always total 100 and the DT slot never gets a user |
| SubmitDeal.BuildDealData | src/pages/SubmitDeal.tsx:44-80 | the client, location and currency are the form's; the status is Draft exactly for a draft save, else Submitted; the converted value equals the typed value; the month is 1..12; placement fields appear only for Staff and Contract, service fields only for Service; the split is the chosen preset |
| SubmitDeal.AsDeal | src/pages/SubmitDeal.tsx:82 | the stored deal keeps the submitted split columns, value and submitter |
| SubmitDeal.SubmitterCredit | src/pages/SubmitDeal.tsx:69-80 | the submitter, and any group holding them, is credited 100% under BD and 360 but only 70% under BD_DT, the DT share going to no one |
| Approvals.PendingDeals | src/pages/Approvals.tsx:58-61 | exactly the deals whose status is Submitted or Under Review |
| Approvals.PendingQueue | src/pages/Approvals.tsx:55-68 | the queue is fetched exactly for a Manager, CEO or Admin, and then holds every pending deal and nothing else |
| Approvals.Apply | src/pages/Approvals.tsx:78-85 | approving marks the deal Approved by the approver, requesting a revision marks it Revision Required with the comment; either stamps the time, takes the deal out of the pending statuses and keeps its value and split users |
| Approvals.UpdateWhere | src/pages/Approvals.tsx:85 | the decision reaches every row with the id and no other row |
| Approvals.Without | src/pages/Approvals.tsx:94 | exactly the rows without the id |
| Approvals.DecisionLeavesQueue | src/pages/Approvals.tsx:76-135 | after either decision the refetched queue is the old queue with that deal removed, in the same order |
| Approvals.ApprovalCounts | src/pages/Approvals.tsx:78-85 | an approved deal counts as approved GP, with its value unchanged |
| Approvals.ProfileName | src/pages/Approvals.tsx:70-74 | "Unassigned" without an id or before profiles load, "Unknown" when no profile matches or its name is empty, else a name that belongs to a profile with that id |
| Approvals.SlotLine | src/pages/Approvals.tsx:254-262 | a slot is shown exactly when its percent is above 0, with that percent and its holder's name |
| Approvals.SplitLines | src/pages/Approvals.tsx:251-264 | at most three lines; a slot's line is shown exactly when its percent is above 0, with the percent and the holder's name |
| Approvals.PresetDtShareUnassigned | src/pages/Approvals.tsx:254-262 | a deal saved with the BD_DT preset shows the submitter's 70% and a 30% DT share that is "Unassigned" |
| Approvals.ApprovalsPage.constructor | src/pages/Approvals.tsx:25-27 | no deal selected, the dialog closed and the comment empty |
| Approvals.ApprovalsPage.HandleApprove | src/pages/Approvals.tsx:76-103 | on success the deal is approved by the signed-in user; on failure nothing changes; the dialog state is untouched |
| Approvals.ApprovalsPage.HandleReject | src/pages/Approvals.tsx:141-144 | the revision dialog opens on the deal |
| Approvals.ApprovalsPage.SetRejectionComment | src/pages/Approvals.tsx:27 | only the comment changes |
| Approvals.ApprovalsPage.CancelReject | src/pages/Approvals.tsx:324 | the revision dialog closes; the deals, the selected deal and the comment typed so far are unchanged |
| Approvals.ApprovalsPage.ConfirmReject | src/pages/Approvals.tsx:105-156 | the request is sent exactly when the trimmed comment is non-empty; on success the selected deal is sent back with the comment as typed and the dialog closes and clears; otherwise nothing changes |
| Approvals.BlankCommentRefused | src/pages/Approvals.tsx:147 | a comment of white space alone is refused |
| AnalyticsGpDetail.StateOrEmpty | src/pages/AnalyticsGPDetail.tsx:10 | without navigation state, no deals and no profiles; otherwise the state as passed |
| AnalyticsGpDetail.RepName | src/pages/AnalyticsGPDetail.tsx:15-17 | no name for an empty slot or an unknown id, else the name of the first profile with that id |
| AnalyticsGpDetail.RowOf | src/pages/AnalyticsGPDetail.tsx:19-28 | a row carries the deal's id, deal type, value (0 when missing) and date, and the names in its three slots |
| AnalyticsGpDetail.Rows | src/pages/AnalyticsGPDetail.tsx:14-29 | one row per deal, in the same order |
| AnalyticsGpDetail.RowsSum | src/pages/AnalyticsGPDetail.tsx:23 | the rows' values add up to the deals' values |
| AnalyticsGpDetail.RowsMembers | src/pages/AnalyticsGPDetail.tsx:14-29 | every deal gives a row and every row comes from some deal |
| AnalyticsGpDetail.GpRows | src/pages/AnalyticsGPDetail.tsx:12-30 | the non-renewal deals' rows, rearranged, largest value first: each such deal gives one row and nothing else is listed |
| AnalyticsGpDetail.GpTotalIsNewValue | src/pages/AnalyticsGPDetail.tsx:32 | the total is the non-renewal deals' value, the same figure as the analytics page's "Total GP Added" card |
| AnalyticsGpDetail.NoStateNoRows | src/pages/AnalyticsGPDetail.tsx:10-32 | without navigation state nothing is listed and the total is 0 |
| AnalyticsRenewalsDetail.RenewalNumber | src/pages/AnalyticsRenewalsDetail.tsx:28 | a missing or zero count reads as 1, any other count as itself; never 0 |
| AnalyticsRenewalsDetail.RenewalRowOf | src/pages/AnalyticsRenewalsDetail.tsx:19-29 | the shared deal row plus the renewal number |
| AnalyticsRenewalsDetail.MapRenewals | src/pages/AnalyticsRenewalsDetail.tsx:14-30 | one row per deal, in the same order |
| AnalyticsRenewalsDetail.RenewalRows | src/pages/AnalyticsRenewalsDetail.tsx:12-30 | one row per renewal deal: every renewal deal is listed and nothing else |
| AnalyticsRenewalsDetail.MapRenewalsSum | src/pages/AnalyticsRenewalsDetail.tsx:23 | the rows' values add up to the deals' values |
| AnalyticsRenewalsDetail.RenewalsTotalAnyOrder | src/pages/AnalyticsRenewalsDetail.tsx:31-33 | in any order of the rows, the total is the renewal deals' value and the count their number |
| AnalyticsRenewalsDetail.DetailsSplitDeals | src/pages/AnalyticsRenewalsDetail.tsx:12-13 | between them the two drill-downs list every handed-over deal exactly once, and their totals add up to the value of all the deals |
| Schema.Ids | src/pages/Leaderboard.tsx:95 | the profiles' ids, in order |
| Schema.HasManagerAccess | src/pages/ManagersAnalytics.tsx:41-43 | access is granted exactly to a user whose profile has a role other than BD, DT and 360, that is Manager, CEO or Admin; the approvals page applies the same test (src/pages/Approvals.tsx:167) |
| Schema.ProfileIndex | src/pages/AnalyticsGPDetail.tsx:15-17 | the position of the first profile with the id, or none when no profile has it |
| Schema.ProfileById | src/pages/Approvals.tsx:72 | a profile with the id, found exactly when one exists |
| Text.ToLower | supabase/functions/process-billing-upload/index.ts:41 | same length, no upper-case letter left, every other character kept |
| Text.ToUpper | supabase/functions/process-billing-upload/index.ts:177 | same length, no lower-case letter left, every other character kept |
| Text.Trim | supabase/functions/process-billing-upload/index.ts:162 | no longer than the input, neither starting nor ending with white space, and keeping every character that is not white space |
| Text.TrimIsSlice | supabase/functions/process-billing-upload/index.ts:162 | the trimmed text is a contiguous slice `s[a..b]` of the input, and every character cut off before `a` or from `b` on is white space |
| Text.Includes | supabase/functions/process-billing-upload/index.ts:168-169 | true exactly when the second string occurs somewhere in the first |

## Left out

- Database, network and auth I/O. Queries, mutations, cache invalidation, the auth service and the exchange-rate fetch are not modelled. Their results are parameters, or an `ok` flag for a mutation's success.
- Toasts, navigation, loading spinners and all rendering other than the values shown.
- Floating point. Amounts are exact reals: JavaScript rounding, `NaN`, `parseFloat` and `Number()` are not modelled, and parsing is a function parameter. `|| 0` is modelled for missing values only, not for `NaN`.
- Text is handled as ASCII. Lower-casing and upper-casing cover ASCII letters only. Trimming strips ASCII white space, the no-break space and the byte-order mark, but not the other Unicode space separators and line terminators.
- BillingUpload.NormalizeColumnName: the alias lists are a parameter of the handler, and the source's own lists are a constant. The model does not prove that the alias 'grosspro fit' normalises to 'grossprofit', because evaluating normalisation on literal strings is beyond the solver's budget.
- Locale-dependent ordering is left unspecified. The monthly trend list is sorted by `localeCompare` on a formatted month name, and the renewals drill-down sorts by re-parsing an en-GB date string. The model proves the renewals total and count for any order of the rows.
- Sort stability. Each sorted table is proved to be sorted and a rearrangement of its unsorted rows, but the order among equal keys is not fixed.
- The approvals queue's newest-first order is left to the database. The model keeps the deals in the order given.
- SubmitDeal.BuildDealData: the zod `dealSchema` is declared but never applied on submit, so no validation is modelled. `user?.id` is taken to be defined.
- The 'No Team' and 'Unknown' fallback labels of the targets board's rows are display text, so they are not modelled.
- BillingUpload.Handle: a failed profiles query during ingestion (a 400 response in the source) is not modelled; the profiles are a parameter that is always read.
- AnalyticsGpDetail.RowOf: the client column of both drill-downs is display text copied from the deal, and the modelled deal carries no client, so it is not modelled.
- TargetsLeaderboard.MakeStanding: the role label a row shows (`sales_role`, falling back to `role_type`) is display text only, so it is not modelled.
- Teams: only the data the query returns is modelled. Filtering teams by `active` happens in the database query.
- TargetsManagement.TotalsAgree: requires every target month to lie in 1..12. The editor only ever writes those months, but a stored row with another month would break the equation in the source too.
- Dates and times are a `Moment` with a year, a 0-based month and an offset within the month. Time zones and the `toISOString` format are not modelled.
- The create-user and update-user functions, routing, the layout, the admin forms, the billings placeholder page, drafts, the CSV file picker and the projection drill-down only display or forward values, so they are not modelled.
