# Storm-crew timesheet dashboard: a verified Dafny model

This project models the logic of a React dashboard that utility contractors use to manage storm-response crews.
It is written in Dafny and checked by Dafny's verifier.
The modelled behaviour covers:

- the weekly timesheet generator and its Wednesday-based week;
- week navigation;
- the application and authentication stores (reducers, lookups, the session kept in browser storage);
- the timesheet page: filtering, counts, the grid, the right-click menu and the day detail modal;
- the crew management page;
- the dashboard panels: stats cards, crew status, exception alerts and recent activity.

Modelling conventions:

- Calendar dates (the week start, the week dates, the shown dates) are integer day numbers. Day 0 is 1970-01-01, a Thursday, and `DayOfWeek` counts 0 = Sunday.
- Timestamps are integer milliseconds: a time entry's `date` (its UTC midnight), its `submittedAt` and an exception's `createdAt`.
- Hour figures are exact reals.
- `Math.random` draws, the clock, fresh ids and the browser key-value store are parameters or fields.

Modules follow the source files:

- `Types` covers `src/types/index.ts`, and `TimesheetTypes` covers `src/types/timesheet.ts`. These are records only.
- `TimesheetData` covers `src/utils/timesheetData.ts`.
- `WeekNavigation`, `TimesheetDataView`, `TimesheetGrid` and `TimesheetDetailModal` cover the timesheet components.
- `AppStore` covers `src/contexts/AppContext.tsx`.
- `AuthStore` covers `src/contexts/AuthContext.tsx`.
- `CrewManagement` covers the crew page.
- `Dashboard`, `StatsCards`, `CrewStatus`, `ExceptionAlerts` and `RecentActivity` cover the dashboard.
- `Seqs` and `Strings` hold the JavaScript array and string primitives the code relies on: `filter`, `find`, `slice`, `includes`, `trim`, `toLowerCase` and `replace`.

Code that changes state step by step is modelled with methods and classes:

- `BuildWeeklyData`, `BuildCrewRecord` and `GenerateTimesheetData` are the generator's loops.
- `FlattenByUtility` is the grid's `reduce` into a dictionary.
- `SortByRecency` is the in-place `Array.prototype.sort` on an `array`.
- The page state is held in the classes `AuthProvider`, `TimesheetView`, `ContextMenu` and `CrewManagementView`.

Each method is proved against a specification function or an outright property.

Two behaviours of the code are kept as written:

- The generator's "weekend" is positions 5 and 6 of a week that starts on Wednesday. Those positions are Monday and Tuesday, not Saturday and Sunday (`TimesheetData.WeekendIndicesAreMondayAndTuesday`).
- For the same reason, the grid's "hide weekends" switch hides Monday and Tuesday (`TimesheetGrid.HiddenDaysAreMondayAndTuesday`).

## Model

| member | source | states |
|---|---|---|
| TimesheetData.DayOfWeek | src/utils/timesheetData.ts:87 | `getDay()` of a day number is a weekday index in 0..6 |
| TimesheetData.GetWeekStartIsWednesday | src/utils/timesheetData.ts:84-91 | getWeekStart always lands on a Wednesday at most six days before the date |
| TimesheetData.GetWeekStart | src/utils/timesheetData.ts:84-91 | the week start lies in the six days up to and including the date |
| TimesheetData.GetWeekStartUnique | src/utils/timesheetData.ts:84-91 | the week start is the only Wednesday in the six days up to the date |
| TimesheetData.GetWeekStartOnWednesday | src/utils/timesheetData.ts:88 | a Wednesday is its own week start |
| TimesheetData.GetWeekStartIdempotent | src/utils/timesheetData.ts:84-91 | taking the week start twice changes nothing |
| TimesheetData.Aug13Of2025Window | src/components/Timesheets/TimesheetDataView.tsx:11-14 | 2025-08-13 is a Wednesday and starts the week holding Aug 13-19 |
| TimesheetData.WeekDates | src/utils/timesheetData.ts:5-9 | seven consecutive dates from the week start; a date is listed iff it falls in that week |
| TimesheetData.WeekDatesCover | src/utils/timesheetData.ts:5-9 | every date lies in the week list of its own week start, and every listed date has that week start |
| TimesheetData.WeekendIndicesAreMondayAndTuesday | src/utils/timesheetData.ts:19-20 | the positions flagged as weekend (5 and 6) fall on Monday and Tuesday, Saturday and Sunday are positions 3 and 4 |
| TimesheetData.Classify | src/utils/timesheetData.ts:24-64 | every cell has an entry iff it is not missing, and then 16 hours; missing iff the draw is below the day's threshold |
| TimesheetData.ClassifyBands | src/utils/timesheetData.ts:28-58 | exact status bands of the draw: weekend 0.3/0.7/0.85, weekday 0.1/0.8/0.95 |
| TimesheetData.ClassifyMonotone | src/utils/timesheetData.ts:28-58 | a larger draw never yields an earlier status in missing, approved, submitted, pending order |
| TimesheetData.WeeklyDataShape | src/utils/timesheetData.ts:16-65 | a member's weekly data has exactly the seven week dates as keys and every cell is consistent |
| TimesheetData.BuildWeeklyData | src/utils/timesheetData.ts:18-65 | the forEach loop fills the map with exactly the specified cells |
| TimesheetData.MemberIdShape | src/utils/timesheetData.ts:68 | a member id is the crew id, `_`, then a name without white space and without upper-case ASCII letters |
| TimesheetData.MemberId | src/utils/timesheetData.ts:68 | the id begins with the crew id followed by `_` |
| TimesheetData.MembersOfExact | src/utils/timesheetData.ts:13 | a crew's members are exactly the roster entries with its id, in roster order |
| TimesheetData.MemberTotalPrefix | src/utils/timesheetData.ts:11-15 | draws consumed by a prefix of the crews never exceed those of all crews |
| TimesheetData.Project | src/utils/timesheetData.ts:11-81 | one record per sample crew |
| TimesheetData.CrewRecordShape | src/utils/timesheetData.ts:75-80 | a crew record copies id, name and utility and holds one member record per roster member, each a full week |
| TimesheetData.ProjectShape | src/utils/timesheetData.ts:11-81 | every generated crew record has that shape, in crew order |
| TimesheetData.ProjectCellCount | src/utils/timesheetData.ts:11-81 | the generator produces exactly seven cells per crew member |
| TimesheetData.MemberCellsOfWeek | src/utils/timesheetData.ts:15-73 | members with full weeks hold seven cells each |
| TimesheetData.ProjectSnoc | src/utils/timesheetData.ts:11-81 | generating one more crew appends its record and consumes its members' draws |
| TimesheetData.BuildCrewRecord | src/utils/timesheetData.ts:15-80 | the member loop builds the specified crew record |
| TimesheetData.GenerateTimesheetData | src/utils/timesheetData.ts:4-82 | the crew loop returns exactly the specified projection |
| WeekNavigation.WeekdayPeriodic | src/components/Timesheets/WeekNavigation.tsx:16-26 | shifting a date by seven days keeps its weekday |
| WeekNavigation.PreviousWeek | src/components/Timesheets/WeekNavigation.tsx:16-20 | the previous week is seven days earlier on the same weekday |
| WeekNavigation.NextWeek | src/components/Timesheets/WeekNavigation.tsx:22-26 | the next week is seven days later on the same weekday |
| WeekNavigation.NavigationRoundTrip | src/components/Timesheets/WeekNavigation.tsx:16-26 | next then previous, and previous then next, return to the same week |
| WeekNavigation.NavigationKeepsWeekStart | src/components/Timesheets/WeekNavigation.tsx:16-26 | navigating from a week start reaches another week start |
| WeekNavigation.NavigationShiftsWindow | src/components/Timesheets/WeekNavigation.tsx:16-26 | the week start of the next (previous) date is the next (previous) week start |
| AppStore.ReplaceById | src/contexts/AppContext.tsx:54-58 | the update map keeps length and ids; each element is either kept or replaced by the new item |
| AppStore.ReplaceByIdAbsent | src/contexts/AppContext.tsx:54-58 | updating an id that is not present changes nothing |
| AppStore.ReplaceByIdIdempotent | src/contexts/AppContext.tsx:54-58 | applying the same update twice is the same as once |
| AppStore.ReplaceByIdPresent | src/contexts/AppContext.tsx:54-58 | when the id is present the new item is in the result |
| AppStore.DeleteById | src/contexts/AppContext.tsx:59-63 | no element with the deleted id remains |
| AppStore.DeleteByIdKeepsOthers | src/contexts/AppContext.tsx:59-63 | every other element is kept with its multiplicity and in order |
| AppStore.Merge | src/contexts/AppContext.tsx:90-91 | every field the payload carries replaces the state's, and every field it lacks keeps its value |
| AppStore.AddActionsAppend | src/contexts/AppContext.tsx:52-84 | the four ADD actions append the item to their list and change nothing else |
| AppStore.UpdateActionsReplace | src/contexts/AppContext.tsx:54-89 | the four UPDATE actions replace exactly the matching items of their list and change nothing else |
| AppStore.UpdateActionsNoOpAndIdempotent | src/contexts/AppContext.tsx:54-89 | an update is idempotent, and a no-op when no item has the id |
| AppStore.DeleteActionsRemove | src/contexts/AppContext.tsx:59-75 | DELETE_CREW and DELETE_USER keep exactly the other items, in order, and change nothing else |
| AppStore.LoadDataMerges | src/contexts/AppContext.tsx:90-91 | LOAD_DATA is the merge: each of the seven fields is the payload's when present and the old one otherwise; an empty payload is a no-op |
| AppStore.AppReduce | src/contexts/AppContext.tsx:46-95 | each action changes only its own slice: contracts only by LOAD_DATA, crews only by the crew actions, users only by the user actions, entries and exceptions only by theirs, the selection and loading flag only by their setters (and LOAD_DATA) |
| AppStore.SettersAndDefault | src/contexts/AppContext.tsx:46-95 | the two setters set their field; an unknown action leaves the state unchanged |
| AppStore.LoadSucceeded | src/contexts/AppContext.tsx:122-133 | a successful load installs all five lists, selects the first contract (if any) and stops loading |
| AppStore.LoadFailed | src/contexts/AppContext.tsx:100-137 | a failed load from the initial state only stops loading |
| AppStore.GetCrewsByContract | src/contexts/AppContext.tsx:187-189 | every returned crew runs under the contract |
| AppStore.GetTimeEntriesByCrew | src/contexts/AppContext.tsx:191-193 | every returned entry belongs to the crew |
| AppStore.LookupsAreOrderedSelections | src/contexts/AppContext.tsx:187-193 | both lookups return exactly the matching items in store order |
| AppStore.ContractCrews | src/components/Dashboard/Dashboard.tsx:13 | all crews without a selected contract, otherwise only that contract's crews |
| AppStore.ContractCrewsExact | src/components/Crews/CrewManagement.tsx:31 | the contract's crews are exactly the matching store crews, in store order |
| AuthStore.AuthReduceActions | src/contexts/AuthContext.tsx:25-46 | what each of the six actions does to user, isAuthenticated and loading |
| AuthStore.AuthReduce | src/contexts/AuthContext.tsx:25-46 | success, failure, logout and load end loading and make the signed-in flag agree with the user; start, update and unknown actions keep the flag |
| AuthStore.AuthReducePreservesConsistency | src/contexts/AuthContext.tsx:25-46 | every action keeps "authenticated implies a user is present" |
| AuthStore.SavedUser | src/contexts/AuthContext.tsx:57-70 | the mount effect loads a user iff the key holds a parsable user object |
| AuthStore.FindActiveUser | src/contexts/AuthContext.tsx:79 | none iff no active user has the name; otherwise an active user with that name from the table |
| AuthStore.SampleLogins | src/data/sampleData.ts:4-35 | the demo names admin and viewer sign in as their own records |
| AuthStore.UnknownLoginsFail | src/data/sampleData.ts:4-35 | a name outside the three demo users does not sign in |
| AuthStore.AuthProvider.constructor | src/contexts/AuthContext.tsx:51-55 | starts signed out and loading, over the given browser store |
| AuthStore.AuthProvider.LoadSavedUser | src/contexts/AuthContext.tsx:57-70 | loads the stored user (or none) and stops loading; the store is unchanged |
| AuthStore.AuthProvider.Login | src/contexts/AuthContext.tsx:72-90 | succeeds iff an active user has the name; on success stores and signs in that user stamped with the login time; on failure signs out and leaves the store |
| AuthStore.AuthProvider.Logout | src/contexts/AuthContext.tsx:92-95 | removes the stored user and signs out |
| AuthStore.AuthProvider.UpdateUser | src/contexts/AuthContext.tsx:97-100 | stores and installs the new record, sign-in flags unchanged |
| TimesheetDataView.Utilities | src/components/Timesheets/TimesheetDataView.tsx:33 | the utility of each crew, position by position |
| TimesheetDataView.AvailableUtilities | src/components/Timesheets/TimesheetDataView.tsx:33 | no duplicates; a utility is listed iff some crew has it |
| TimesheetDataView.FilteredCrews | src/components/Timesheets/TimesheetDataView.tsx:36-55 | every kept crew matches search, utility selection and view mode |
| TimesheetDataView.FilteredCrewsExact | src/components/Timesheets/TimesheetDataView.tsx:36-55 | exactly the matching crews are kept, in order |
| TimesheetDataView.UnfilteredShowsAll | src/components/Timesheets/TimesheetDataView.tsx:36-55 | no search, no utility selected and view mode all keeps every crew |
| TimesheetDataView.StatusCountPositive | src/components/Timesheets/TimesheetDataView.tsx:98 | a member's count of a status is positive iff some day has it |
| TimesheetDataView.StatusCount | src/components/Timesheets/TimesheetDataView.tsx:98 | a member's count of a status never exceeds its number of days |
| TimesheetDataView.PendingReviews | src/components/Timesheets/TimesheetDataView.tsx:96-100 | positive iff some shown crew has a pending day |
| TimesheetDataView.MissingEntries | src/components/Timesheets/TimesheetDataView.tsx:101-105 | positive iff some shown crew has a missing day |
| TimesheetDataView.StatusCountsPartition | src/components/Timesheets/TimesheetDataView.tsx:95-105 | the four status counts of a member add up to its number of days |
| TimesheetDataView.MemberStatusTotalPositive | src/components/Timesheets/TimesheetDataView.tsx:97-99 | a crew's inner sum is positive iff some member has a day with that status |
| TimesheetDataView.CrewCountPositive | src/components/Timesheets/TimesheetDataView.tsx:45-51 | the crew's count is positive iff the view-mode test holds for it |
| TimesheetDataView.CrewsStatusTotalPositive | src/components/Timesheets/TimesheetDataView.tsx:96-105 | the page total is positive iff some crew has a day with that status |
| TimesheetDataView.CrewsStatusTotalAtLeastLength | src/components/Timesheets/TimesheetDataView.tsx:96-105 | if every crew has such a day, the total is at least the number of crews |
| TimesheetDataView.ViewModeCounts | src/components/Timesheets/TimesheetDataView.tsx:43-105 | in pending (missing) view the pending (missing) count is at least the number of crews shown |
| TimesheetDataView.ResolveCell | src/components/Timesheets/TimesheetDataView.tsx:65-74 | a click resolves to the first crew with that id and, within it, the first member with that id, or fails exactly when there is no such crew or it lacks such a member |
| TimesheetDataView.TimesheetView.constructor | src/components/Timesheets/TimesheetDataView.tsx:11-24 | opens on the week of 2025-08-13 with empty filters, weekends shown and no selection |
| TimesheetDataView.TimesheetView.RefreshCrews | src/components/Timesheets/TimesheetDataView.tsx:27-30 | the crews become the generated data for the current week; week, selection, date, modal; search, utilities, view mode and weekend toggle unchanged |
| TimesheetDataView.TimesheetView.HandleWeekChange | src/components/Timesheets/TimesheetDataView.tsx:57-59 | the current week becomes the Wednesday week holding the date; crews, selection, date, modal; search, utilities, view mode and weekend toggle unchanged |
| TimesheetDataView.TimesheetView.HandleTodayClick | src/components/Timesheets/TimesheetDataView.tsx:61-63 | the current week becomes the week holding today; crews, selection, date, modal; search, utilities, view mode and weekend toggle unchanged |
| TimesheetDataView.TimesheetView.HandleCellClick | src/components/Timesheets/TimesheetDataView.tsx:65-74 | selects crew, member and date and opens the modal iff the cell resolves; otherwise nothing changes; crews, week; search, utilities, view mode and weekend toggle unchanged |
| TimesheetDataView.TimesheetView.CloseDetailModal | src/components/Timesheets/TimesheetDataView.tsx:87-92 | closes the modal and clears the selection; crews, week; search, utilities, view mode and weekend toggle unchanged |
| TimesheetGrid.DisplayDates | src/components/Timesheets/TimesheetGrid.tsx:30-37 | seven week dates, or their first five when weekends are hidden |
| TimesheetGrid.HiddenDaysAreMondayAndTuesday | src/components/Timesheets/TimesheetGrid.tsx:37 | hiding weekends hides Monday and Tuesday and keeps Saturday and Sunday |
| TimesheetGrid.GroupOf | src/components/Timesheets/TimesheetGrid.tsx:40-49 | a group holds only crews of its utility |
| TimesheetGrid.GroupsPartitionCrews | src/components/Timesheets/TimesheetGrid.tsx:40-49 | each crew is in exactly the group of its utility, in crew order |
| TimesheetGrid.FlattenByUtility | src/components/Timesheets/TimesheetGrid.tsx:40-49 | the reduce yields one key per utility in first-appearance order, each holding that utility's crews in order |
| TimesheetGrid.GroupOfMissing | src/components/Timesheets/TimesheetGrid.tsx:42-45 | a utility not yet seen has no crews so far |
| TimesheetGrid.ShownStatus | src/components/Timesheets/TimesheetGrid.tsx:171-181 | a cell shows its day's status, or missing when there is no data for the date |
| TimesheetGrid.ShownHours | src/components/Timesheets/TimesheetGrid.tsx:171-181 | no data or no hours means zero; otherwise the day's hours |
| TimesheetGrid.HoursBadgeRule | src/components/Timesheets/TimesheetGrid.tsx:182-186 | the hours badge shows iff the hours are present and non-zero; for generated cells iff the cell has an entry |
| TimesheetGrid.StatusIconOf | src/components/Timesheets/TimesheetGrid.tsx:51-63 | green for approved or submitted, red for missing, yellow for pending, blue otherwise |
| TimesheetGrid.CellBackground | src/components/Timesheets/TimesheetGrid.tsx:65-77 | the same four-way split of backgrounds |
| TimesheetGrid.StatusStylesAgree | src/components/Timesheets/TimesheetGrid.tsx:51-77 | icon and background always agree; no generated status falls to the default; a cell without data looks missing |
| TimesheetGrid.UtilityColor | src/components/Timesheets/TimesheetGrid.tsx:79-88 | gray exactly for utilities outside the five known ones |
| TimesheetGrid.ContextMenu.constructor | src/components/Timesheets/TimesheetGrid.tsx:20-27 | the menu starts hidden with every field cleared |
| TimesheetGrid.ContextMenu.RightClick | src/components/Timesheets/TimesheetGrid.tsx:90-100 | shows the menu at the pointer for the clicked cell |
| TimesheetGrid.ContextMenu.MenuAction | src/components/Timesheets/TimesheetGrid.tsx:102-105 | any action hides and clears the menu |
| TimesheetGrid.ContextMenu.DismissOnClick | src/components/Timesheets/TimesheetGrid.tsx:108-114 | a click elsewhere hides the menu and keeps its other fields |
| TimesheetDetailModal.RegularHours | src/components/Timesheets/TimesheetDetailModal.tsx:147 | regular hours never exceed eight or the total |
| TimesheetDetailModal.OvertimeHours | src/components/Timesheets/TimesheetDetailModal.tsx:149-153 | the overtime row appears iff the total exceeds eight, with a positive excess |
| TimesheetDetailModal.HoursSplit | src/components/Timesheets/TimesheetDetailModal.tsx:113-153 | regular plus overtime equals the total |
| TimesheetDetailModal.StatusColor | src/components/Timesheets/TimesheetDetailModal.tsx:30-42 | green for approved or submitted, red for missing, yellow for pending, blue otherwise |
| TimesheetDetailModal.StatusLabel | src/components/Timesheets/TimesheetDetailModal.tsx:104 | the status with its first letter upper-cased and the rest unchanged |
| TimesheetDetailModal.StatusLabels | src/components/Timesheets/TimesheetDetailModal.tsx:104 | the four statuses read Submitted, Approved, Pending, Missing |
| TimesheetDetailModal.RenderModal | src/components/Timesheets/TimesheetDetailModal.tsx:20-254 | renders iff open with crew and member; the no-entry panel iff the day has no entry; entry buttons iff it has; the panel shows the status label and colour, the total, regular = min(total, 8), and an overtime row iff the total exceeds 8 holding the excess |
| TimesheetDetailModal.GeneratedDayHours | src/components/Timesheets/TimesheetDetailModal.tsx:147-153 | a generated 16-hour day splits into 8 regular and 8 overtime |
| CrewManagement.FilteredCrews | src/components/Crews/CrewManagement.tsx:34-41 | every kept crew matches the search (name or supervisor, any case) and the status filter |
| CrewManagement.FilteredCrewsExact | src/components/Crews/CrewManagement.tsx:34-41 | exactly the matching contract crews are kept, in order; empty search with 'all' keeps all |
| CrewManagement.HandleDelete | src/components/Crews/CrewManagement.tsx:43-47 | the crew is deleted iff the user confirms |
| CrewManagement.SupervisorName | src/components/Crews/CrewManagement.tsx:49-52 | the first crew with that supervisor decides: its first member's name when it has members and the name is non-empty, 'Unknown' otherwise; 'Unknown' when no crew has it |
| CrewManagement.TotalMembersBound | src/components/Crews/CrewManagement.tsx:254 | the members total is at least any one crew's size |
| CrewManagement.TotalMembers | src/components/Crews/CrewManagement.tsx:255 | zero iff every crew has no members |
| CrewManagement.TotalMembersAppend | src/components/Crews/CrewManagement.tsx:255 | the total over two crew lists is the sum of their totals |
| CrewManagement.CollapsedItems | src/components/Crews/CrewManagement.tsx:402 | a collapsed list is the first `limit` items, an expanded one all of them |
| CrewManagement.ToggleLabelFor | src/components/Crews/CrewManagement.tsx:408-418 | the expand button exists iff there are more items than the limit; collapsed it offers the positive number hidden |
| CrewManagement.CollapsedCards | src/components/Crews/CrewManagement.tsx:402-480 | members collapse to 3 and equipment to 2; the button appears iff there are more, and shown plus hidden is the total |
| CrewManagement.Toggle | src/components/Crews/CrewManagement.tsx:54-72 | only the toggled crew's membership flips |
| CrewManagement.ToggleTwice | src/components/Crews/CrewManagement.tsx:54-72 | toggling twice restores the set |
| CrewManagement.RemoveAt | src/components/Crews/CrewManagement.tsx:145 | drops exactly the given position, or nothing when it is out of range |
| CrewManagement.CrewManagementView.constructor | src/components/Crews/CrewManagement.tsx:9-28 | the page's initial state |
| CrewManagement.CrewManagementView.ToggleMembersExpanded | src/components/Crews/CrewManagement.tsx:54-62 | flips the crew in the expanded-members set; every other field unchanged |
| CrewManagement.CrewManagementView.ToggleEquipmentExpanded | src/components/Crews/CrewManagement.tsx:64-72 | flips the crew in the expanded-equipment set; every other field unchanged |
| CrewManagement.CrewManagementView.ViewTimesheets | src/components/Crews/CrewManagement.tsx:74-76 | selects the crew for the timesheet modal; every other field unchanged |
| CrewManagement.CrewManagementView.CloseTimesheetModal | src/components/Crews/CrewManagement.tsx:78-80 | clears that selection; every other field unchanged |
| CrewManagement.CrewManagementView.Edit | src/components/Crews/CrewManagement.tsx:82-90 | starts editing the crew with a copy of its fields; every other field unchanged |
| CrewManagement.CrewManagementView.CancelEdit | src/components/Crews/CrewManagement.tsx:92-97 | stops editing and clears the three inputs; every other field unchanged |
| CrewManagement.CrewManagementView.SaveEdit | src/components/Crews/CrewManagement.tsx:99-115 | yields the edited crew merged with the form (when a non-empty id is edited and found), then cancels; crews are untouched; every other field unchanged |
| CrewManagement.CrewManagementView.RemoveMember | src/components/Crews/CrewManagement.tsx:117-122 | the form's members without that id; every other field unchanged |
| CrewManagement.RemoveMemberKeepsOthers | src/components/Crews/CrewManagement.tsx:117-122 | removal keeps exactly the other members, in order |
| CrewManagement.CrewManagementView.AddMember | src/components/Crews/CrewManagement.tsx:124-140 | with non-blank name and role appends a trimmed active member at rate 30 and clears the two inputs; otherwise nothing changes; every other field unchanged |
| CrewManagement.CrewManagementView.RemoveEquipment | src/components/Crews/CrewManagement.tsx:142-147 | drops the equipment at that position; every other field unchanged |
| CrewManagement.CrewManagementView.AddEquipment | src/components/Crews/CrewManagement.tsx:149-157 | appends the trimmed input iff it is not blank, and clears it; every other field unchanged |
| Strings.TrimEmptyIff | src/components/Crews/CrewManagement.tsx:125 | a trimmed input is empty iff it is all white space |
| CrewStatus.ActiveCrews | src/components/Dashboard/CrewStatus.tsx:10 | only active crews |
| CrewStatus.InactiveCrews | src/components/Dashboard/CrewStatus.tsx:11 | only inactive crews |
| CrewStatus.ActiveInactivePartition | src/components/Dashboard/CrewStatus.tsx:10-11 | the two lists split the crews: each crew in the list its flag says, order kept, counts summing to the total |
| CrewStatus.RenderCrewStatus | src/components/Dashboard/CrewStatus.tsx:18-57 | lists the first min(5, active) active crews; "+N more" iff more than five are active, with N = active − 5; at most three inactive crews, a prefix of the inactive list |
| CrewStatus.CrewStatusDisplay | src/components/Dashboard/CrewStatus.tsx:30-57 | "+N more" iff more than five active, with shown plus N the active count; the inactive section iff some crew is inactive, listing min(3, inactive) |
| Dashboard.ContractTimeEntries | src/components/Dashboard/Dashboard.tsx:14-16 | every kept entry belongs to one of the given crews |
| Dashboard.DashboardDataOf | src/components/Dashboard/Dashboard.tsx:13-53 | the panels get the contract's crews and an ordered selection of the entries |
| Dashboard.DashboardScoping | src/components/Dashboard/Dashboard.tsx:13-46 | an entry is passed on iff its crew is a store crew of the selected contract (any, when none); unknown crews' entries never; exceptions unscoped |
| Dashboard.BelongsToContract | src/components/Dashboard/Dashboard.tsx:13-46 | an entry matches a crew of the scoped list iff some store crew with its crew id runs under the selected contract |
| StatsCards.HoursTotalSplit | src/components/Dashboard/StatsCards.tsx:13-15 | total hours equal regular plus overtime hours |
| StatsCards.TotalHoursOf | src/components/Dashboard/StatsCards.tsx:13 | zero for no entries; never negative when no entry has negative hours |
| StatsCards.RegularHoursOf | src/components/Dashboard/StatsCards.tsx:14 | zero for no entries; never negative when no regular figure is negative |
| StatsCards.OvertimeHoursOf | src/components/Dashboard/StatsCards.tsx:15 | zero for no entries; never negative when no overtime figure is negative |
| StatsCards.ActiveCrewsCard | src/components/Dashboard/StatsCards.tsx:16-37 | the inactive figure is never negative and equals the number of inactive crews |
| StatsCards.PendingExceptionsCard | src/components/Dashboard/StatsCards.tsx:17-54 | counts the pending exceptions; the change is one of the two labels and never an increase |
| StatsCards.PendingCardLabels | src/components/Dashboard/StatsCards.tsx:53-54 | 'Some resolved' iff some exception is settled; 'decrease' iff some exception is pending |
| ExceptionAlerts.PendingExceptions | src/components/Dashboard/ExceptionAlerts.tsx:10-12 | only submitted or under-review exceptions |
| ExceptionAlerts.PendingExact | src/components/Dashboard/ExceptionAlerts.tsx:10-12 | exactly those exceptions, in order |
| ExceptionAlerts.RenderAlerts | src/components/Dashboard/ExceptionAlerts.tsx:60-123 | lists the first min(6, pending) pending exceptions; "View all" iff more than six are pending, showing the pending count; the badge iff any is pending; the empty state iff none is |
| ExceptionAlerts.AlertsDisplay | src/components/Dashboard/ExceptionAlerts.tsx:65-123 | empty state iff nothing is pending, and then no badge, list or button; "view all" iff some pending alert is not listed, otherwise all are listed; the badge is the pending count |
| ExceptionAlerts.ReasonKindOf | src/components/Dashboard/ExceptionAlerts.tsx:15-21 | each known reason is recognised exactly when the lower-cased reason equals it |
| ExceptionAlerts.ExceptionIcon | src/components/Dashboard/ExceptionAlerts.tsx:14-25 | the default icon exactly for unknown reasons |
| ExceptionAlerts.PriorityColor | src/components/Dashboard/ExceptionAlerts.tsx:27-38 | the default colour exactly for unknown reasons |
| ExceptionAlerts.ReasonStylesIgnoreCase | src/components/Dashboard/ExceptionAlerts.tsx:14-38 | reasons equal up to case get the same styles, a reason and its lower-case form in particular; icon and border agree |
| ExceptionAlerts.SampleReasonKinds | src/components/Dashboard/ExceptionAlerts.tsx:14-22 | the title-case reasons "Excessive Overtime", "GPS Location Variance" and "Rate Discrepancy" are recognised despite the lower-case switch labels |
| ExceptionAlerts.StatusLabel | src/components/Dashboard/ExceptionAlerts.tsx:93 | a status without `_` is shown as is |
| ExceptionAlerts.StatusLabels | src/components/Dashboard/ExceptionAlerts.tsx:93 | "under review" for under_review, the plain status otherwise |
| Strings.ReplaceFirst | src/components/Dashboard/ExceptionAlerts.tsx:93 | only the first occurrence of the character is replaced |
| ExceptionAlerts.StatusBadgeColor | src/components/Dashboard/ExceptionAlerts.tsx:88-92 | blue exactly for under review |
| ExceptionAlerts.FormatTimeAgo | src/components/Dashboard/ExceptionAlerts.tsx:40-52 | "Just now" iff under an hour (future included); else the floor of the hours below a day; else the floor of the days |
| RecentActivity.RecencyKey | src/components/Dashboard/RecentActivity.tsx:13 | submittedAt when present, else the entry date |
| RecentActivity.SortByRecency | src/components/Dashboard/RecentActivity.tsx:12-13 | the array ends most recent first and is a permutation of itself |
| RecentActivity.SinkStep | src/components/Dashboard/RecentActivity.tsx:13 | one swap of the moving entry keeps every other pair in order |
| RecentActivity.SinkDone | src/components/Dashboard/RecentActivity.tsx:13 | once the moving entry has settled the prefix is sorted |
| RecentActivity.RecentEntries | src/components/Dashboard/RecentActivity.tsx:12-14 | min(8, n) entries, a prefix of the sorted array, none less recent than an entry left out |
| RecentActivity.CrewName | src/components/Dashboard/RecentActivity.tsx:16-19 | the first crew with that id decides: its name when non-empty, 'Unknown Crew' otherwise; 'Unknown Crew' when none matches |
| RecentActivity.ActivityStatusIcon | src/components/Dashboard/RecentActivity.tsx:21-32 | distinct icons for approved, rejected and submitted |
| RecentActivity.ActivityStatusColor | src/components/Dashboard/RecentActivity.tsx:34-45 | distinct colours for approved, rejected and submitted |
| RecentActivity.ActivityStatusStyles | src/components/Dashboard/RecentActivity.tsx:21-45 | the three known statuses get pairwise distinct icons and colours; draft gets the gray default |

## Left out

- Network and backend: the Supabase client and schema types are not modelled. Neither is the `loadData` effect with its `Promise.all`. The store's reaction to its success and failure is modelled (`LoadSucceeded`, `LoadFailed`).
- React wiring is not modelled: providers, the `useApp`/`useAuth` guards, JSX layout and CSS beyond the status tables. Routing, the login form, the header and the sidebar are also out.
- `handleUtilityToggle` in the timesheet filters refers to undefined names and never reports a change. It has no coherent behaviour to model.
- Randomness: the `Math.random` draws are a parameter list, consumed seven per member in crew, member, date order. `Date.now()` member ids are a `freshId` parameter. The clock is a parameter (`today`, `nowMs`, `now`).
- Dates are day numbers with an abstract weekday, so time zones are not modelled: `new Date('2025-08-13')` parses as UTC midnight while `getWeekStart` reads the local `getDay()`, so west of UTC the initial week would start on 2025-08-06 local time; the model takes the date as 2025-08-13 itself. The UTC shift of `toISOString().split('T')` relative to local time is not modelled either. Neither are locale formatting, `formatWeekRange`, `formatDate` and `formatTime`.
- Floating point is not modelled. Hours are exact reals; `toFixed`, the hours chart and `hoursThisWeek` (a wall-clock seven-day window) are out.
- StatsCards.HoursTotalSplit: holds over exact reals only; with IEEE doubles the three separately accumulated sums can differ in the last bits.
- The `setTimeout` delay in `login` is not modelled, nor is the password, which the code ignores.
- `JSON.parse` of stored data is modelled only by its outcome: a user object, `null`, or unparsable. A stored value of another JSON shape is not distinguished.
- A LOAD_DATA payload that explicitly sets a key to `undefined` is treated like an absent key.
- Case mapping covers ASCII letters only.
- JavaScript object key ordering is not modelled. Integer-like utility names would be enumerated first, and inherited keys (`constructor` and so on) would be visible through `flattenedData` and `getUtilityColor`.
- RecentActivity.SortByRecency: does not state that entries of equal recency keep their relative order. Array.prototype.sort guarantees that, and the modelled insertion is stable, but the contract leaves tie order open.
- Invalid or NaN timestamps are not modelled; all readings are integers.
- Setters that only store an input are not operations of their own: `setSearchTerm`, the status, utility, view-mode and weekend switches, and the edit-form text fields. Their fields exist in the page classes.
- `handleCrewClick` and `handleExport` only log or alert, so they are not modelled.
- `getCrewTimeEntries` on the crew page is the store's `getTimeEntriesByCrew` (`AppStore.GetTimeEntriesByCrew`) and has no model of its own.
- Saving a crew edit only logs the record it would save. `SaveEdit` returns that record and does not update the store.
