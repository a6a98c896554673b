# UrbanPlan dashboard: a Dafny model of its decision logic

UrbanPlan ("analise-certa") is a React dashboard. Municipal analysts use it
to check building projects against a city's master plan. All of its data is
hard-coded mock data. What it decides is still sequential and deterministic,
and this project states those decisions as pure Dafny functions over
immutable records and proves properties about them:

- **The new-analysis workflow** (`Workflow`, `src/pages/NovaAnalise.tsx`).
  The analyst fills in a protocol and an address and uploads documents by
  clicking tiles. They then start the simulated analysis, review its fixed
  result, and either go back or conclude.
  - The page is a state machine over one `State`.
  - An invariant holds of every reachable state.
  - The step indicator, the conformity colour band and the camelCase-to-label
    transform are modelled as pure functions.
- **The session authority** (`Auth`, `Login`, `StartPage`). This covers the
  current user and the loading flag, plus the single browser-storage slot
  `urbanplan_user`. The operations are restore-on-mount, `login`, `logout`
  and `setDemoRole`. It also covers the login form's guard and the start
  page's redirect.
- **Role-based navigation** (`Navigation`). This is the sidebar menu filtered
  by role, the role labels, the quick action, the highlighted link, and the
  dashboard chosen for each role.
- **The project lists** (`Projects`). This covers:
  - the search and status filter of the projects page;
  - its per-status tally and filter badges;
  - the analyst's pending projects and greeting;
  - which actions a project card shows;
  - the municipality totals on the operator's dashboard.
- **The task calendar** (`Calendar`). This covers:
  - month navigation;
  - the Gregorian month lengths and the first weekday;
  - the grid of days;
  - the tasks of a day, its dots and their colour;
  - the due-date label.

`Seqs` defines `Array.prototype.filter` once, as `Filter`, with its count
`CountWhere`. It also characterises `Filter` independently: it is the unique
order-preserving subsequence that keeps exactly the elements satisfying the
predicate. Every filtered list the dashboard derives (menu entries, projects,
pending projects, a day's tasks, active municipalities) is an instance of it.
`Domain`
holds the records of `src/types/index.ts`. The role the code spells `'user'`
is the constructor `Analyst`.

Some behaviour of the code worth knowing, which the model follows:
- *Voltar* on the review screen only returns to the upload step. It keeps
  the previous result.
- A document tile uploads only when no record of its type exists yet. The
  three tiles of type `documento` therefore light up together.
- The modelled pages do not check the role. Only the menu is filtered.
- Nothing recovers from a corrupt storage entry.

## Model

| member | source | states |
|---|---|---|
| Domain.RoleKeyRoundTrip | src/types/index.ts:1 | the three role strings encode the roles faithfully: each reads back as its role and distinct roles have distinct strings |
| Seqs.FilterCharacterisation | src/pages/Projetos.tsx:95-100 | a list is the result of `filter` exactly when it is a subsequence of the input whose elements all pass and whose length is the number of passing elements |
| Seqs.FilterMembership | src/components/dashboard/AnalystDashboard.tsx:82 | the filter's elements come from the input, and every passing element of the input is kept |
| Seqs.FilterConcat | src/pages/Calendario.tsx:102-105 | filtering a concatenation filters each part |
| Workflow.HandleFileUpload | src/pages/NovaAnalise.tsx:50-59 | an upload appends exactly one record, of the given type and with status uploaded; earlier records and every other field are unchanged |
| Workflow.ClickTile | src/pages/NovaAnalise.tsx:195-207 | after a click the tile's type is present; a tile whose type is already present changes nothing; otherwise exactly one uploaded record of that type, with the given id and name, is appended after the existing records, which stay as they were; distinct record types stay distinct |
| Workflow.StartAnalysis | src/pages/NovaAnalise.tsx:63-70 | the start is refused exactly when the protocol or the address is empty; otherwise the step becomes processing with the analysing flag raised and nothing else changes |
| Workflow.CompleteAnalysis | src/pages/NovaAnalise.tsx:75-91 | completion stores the fixed result, clears the analysing flag and moves to review, keeping the form and the records |
| Workflow.Voltar | src/pages/NovaAnalise.tsx:345 | going back sets the step to upload and leaves everything else, the old result included, as it was |
| Workflow.FinishAnalysis | src/pages/NovaAnalise.tsx:94-97 | concluding changes only the step, to complete |
| Workflow.NovaAnalise | src/pages/NovaAnalise.tsx:372-378 | restarting clears step, records, protocol, address and result and leaves the analysing flag alone |
| Workflow.Next | src/pages/NovaAnalise.tsx:63-378 | the page moves only along the indicator's edges: upload stays or goes to processing only by the start button; processing goes to review; review goes back to upload by *Voltar* or on to completion by *Concluir*; completion restarts at upload |
| Workflow.EnabledPerStep | src/pages/NovaAnalise.tsx:157-380 | the controls on screen per step: on upload the form, the five tiles and the start button with two records; while processing only the analysis timer; on review *Voltar* and *Concluir* once a result is shown; on completion only the restart button |
| Workflow.InitialInv | src/pages/NovaAnalise.tsx:43-48 | the initial state satisfies the page invariant |
| Workflow.InvPreserved | src/pages/NovaAnalise.tsx:50-378 | every action available on screen keeps the invariant: analysing iff processing, pairwise distinct uploaded records, a filled form and two records outside the upload step, a result on review and completion, and only the fixed result |
| Workflow.StartGuard | src/pages/NovaAnalise.tsx:63-67 | a start leaves the upload step iff protocol and address are filled, changes nothing otherwise, and always finds two records of different types |
| Workflow.OneDocumentCannotStart | src/pages/NovaAnalise.tsx:246 | with fewer than two records the start button is not usable |
| Workflow.AtMostThreeFiles | src/pages/NovaAnalise.tsx:195-207 | records of pairwise distinct types number at most three |
| Workflow.DocumentoTilesShareState | src/pages/NovaAnalise.tsx:33-39 | once one `documento` tile is uploaded all three show as uploaded and clicking any of them changes nothing |
| Workflow.RestartRestoresInitial | src/pages/NovaAnalise.tsx:372-378 | restarting from a reachable completion screen yields exactly the initial state |
| Workflow.GoBackKeepsResult | src/pages/NovaAnalise.tsx:345 | from the review screen *Voltar* reaches the upload step with the form, the records and the result kept |
| Workflow.FinishOnlyFromReview | src/pages/NovaAnalise.tsx:279 | concluding happens only from a rendered review, so the completion screen always holds the fixed result |
| Workflow.ScenarioUpload | src/pages/NovaAnalise.tsx:36-48 | filling the form and clicking both tiles yields two records, still on the upload step, with protocol and address set and no analysis running |
| Workflow.AnalysisRun | src/pages/NovaAnalise.tsx:50-97 | from any upload state with protocol, address and two records: start enters processing, completion enters review with the fixed result, conclusion enters completion, and restarting returns to the mount state |
| Workflow.StepIndex | src/pages/NovaAnalise.tsx:125 | `indexOf` finds every step in the indicator's key list, at a position holding that step |
| Workflow.IndicatorShape | src/pages/NovaAnalise.tsx:118-125 | exactly one indicator step is active, the past steps are exactly those before it, and no step is both |
| Workflow.ConformityBandThreshold | src/pages/NovaAnalise.tsx:287 | the success colour is used exactly from 80 up, is monotone in the score, and applies to the fixed result |
| Workflow.FixedResultShape | src/pages/NovaAnalise.tsx:75-88 | the result scores 87, within 0 to 100, with three alerts and four measurements |
| Workflow.SpaceBeforeCapitalsShape | src/pages/NovaAnalise.tsx:336 | inserting a space before each capital lengthens the key by the number of capitals, and every capital ends up preceded by a space |
| Workflow.SpaceBeforeCapitalsOnlyInserts | src/pages/NovaAnalise.tsx:336 | the insertion adds only spaces: removing spaces from input and output gives the same string |
| Workflow.NoCapitalsUnchanged | src/pages/NovaAnalise.tsx:336 | a key without capitals is left as it is |
| Workflow.SpaceBeforeCapitalsConcat | src/pages/NovaAnalise.tsx:336 | the insertion works character by character, so it distributes over concatenation |
| Workflow.LeadingWhitespace | src/pages/NovaAnalise.tsx:336 | the length of the maximal whitespace prefix |
| Workflow.TrailingWhitespace | src/pages/NovaAnalise.tsx:336 | the length of the maximal whitespace suffix |
| Workflow.Trim | src/pages/NovaAnalise.tsx:336 | `trim` returns the slice between the leading and trailing whitespace, which neither starts nor ends with whitespace, and is empty exactly when the string is all whitespace |
| Workflow.KeyLabelOfPlainKey | src/pages/NovaAnalise.tsx:336 | for a key without whitespace the label is the key with spaces inserted, minus the leading space a capital first letter produces |
| Workflow.LabelOfTwoWords | src/pages/NovaAnalise.tsx:336 | a lower-case word followed by one capitalised word is labelled with one space between them |
| Workflow.FixedResultLabels | src/pages/NovaAnalise.tsx:333-336 | the label strings the page computes for the four measurement keys, before the `capitalize` CSS class raises their first letter on screen: "area Total", "area Permitida", "taxa Ocupacao" and "coeficiente Aproveitamento" |
| Auth.DemoUser | src/contexts/AuthContext.tsx:15-39 | the demo user of a role has that role, its load-time stamp, and a municipality exactly when it is not the operator |
| Auth.DemoUsersShape | src/contexts/AuthContext.tsx:15-39 | the demo users have distinct ids; the operator has no municipality, the other two have `emp-1`; the analyst's id is 3 |
| Auth.Provide | src/contexts/AuthContext.tsx:42-43 | the provider starts with no user and loading |
| Auth.Mount | src/contexts/AuthContext.tsx:45-52 | mounting adopts the stored user when there is one, keeps the slot, and stops loading |
| Auth.RestoreYieldsStored | src/contexts/AuthContext.tsx:45-52 | a fresh page load yields exactly the stored user, or none, and is no longer loading |
| Auth.LoginStart | src/contexts/AuthContext.tsx:55 | `login` raises the loading flag before its wait and changes nothing else |
| Auth.LoginFinish | src/contexts/AuthContext.tsx:59-63 | after the wait the analyst demo user is current and stored, and loading stops |
| Auth.LoginStorageFails | src/contexts/AuthContext.tsx:61-63 | if the storage write throws, it does so after `setUser`: the analyst demo user is current, the slot keeps its old content, and loading is never lowered |
| Auth.Login | src/contexts/AuthContext.tsx:54-64 | `login` always ends with the analyst user (id 3) current and persisted, not loading |
| Auth.LoginIgnoresCredentials | src/contexts/AuthContext.tsx:54-64 | `login` gives the same session whatever the email and password |
| Auth.Logout | src/contexts/AuthContext.tsx:66-69 | `logout` removes the user and the stored entry and leaves the loading flag alone |
| Auth.LogoutIdempotent | src/contexts/AuthContext.tsx:66-69 | logging out twice is logging out once |
| Auth.SetDemoRole | src/contexts/AuthContext.tsx:71-75 | `setDemoRole(r)` makes a user of role `r` current and persists it |
| Auth.OperationsPersist | src/contexts/AuthContext.tsx:47-75 | after `login`, `logout` or `setDemoRole` the slot holds the current user, so the next page load restores that same user |
| Auth.UseAuth | src/contexts/AuthContext.tsx:84-90 | outside a provider the hook fails with its message; inside it returns the provider's session |
| Login.SubmitStart | src/pages/Login.tsx:19-24 | a submit with an empty field is refused; otherwise the form's loading flag is raised, the session is exactly the one `login` starts with (loading raised, user and storage kept), and nothing else changes |
| Login.SubmitFinish | src/pages/Login.tsx:25-33 | after the await the form stops loading; it navigates to the dashboard iff `login` did not throw, reports an error iff it did; after a throw the analyst demo user is current while the slot and the provider's loading flag are as before the write |
| Login.HandleSubmit | src/pages/Login.tsx:17-34 | a submit navigates exactly when both fields are filled and `login` does not throw; it shows an error exactly when it does not navigate; an incomplete form leaves the session as it was, and every complete submit, thrown or not, makes the analyst demo user current; a thrown one leaves the slot as it was and the provider loading |
| Login.SubmitContract | src/pages/Login.tsx:17-34 | an incomplete form shows "Preencha todos os campos" and does not call `login`; a complete one logs in and goes to the dashboard, or reports "Erro ao fazer login"; loading is off after every attempt |
| Login.DemoButtonsAgree | src/pages/Login.tsx:164-168 | the three demo buttons carry the same labels as the greeting, one per role, and the labels are distinct |
| Login.HandleDemoLogin | src/pages/Login.tsx:36-40 | a demo login persists the role's demo user, goes to the dashboard and greets with the role's label |
| StartPage.Redirect | src/pages/Index.tsx:9-17 | no navigation while loading; then the dashboard iff there is a user, the login page iff there is none |
| StartPage.RedirectAfterRestore | src/pages/Index.tsx:9-17 | before mounting nothing happens; after restoring, a stored user leads to the dashboard and an empty slot to the login page |
| StartPage.LogoutThenReload | src/pages/Index.tsx:9-17 | after a logout a reload leads to the login page |
| Navigation.FilteredItems | src/components/layout/AppSidebar.tsx:43-45 | every visible entry carries the user's role; without a user nothing is visible |
| Navigation.FilteredItemsExact | src/components/layout/AppSidebar.tsx:43-45 | the visible entries are exactly the entries carrying the user's role, in table order |
| Navigation.FilteredItemsOfUser | src/components/layout/AppSidebar.tsx:43-45 | for a signed-in user the menu is the table filtered by role membership alone |
| Navigation.MenuPerRole | src/components/layout/AppSidebar.tsx:28-36 | the operator sees Dashboard, Prefeituras, Relatórios; the secretary Dashboard, Projetos, Calendário, Analistas, Relatórios; the analyst Dashboard, Projetos, Nova Análise, Calendário |
| Navigation.TableShape | src/components/layout/AppSidebar.tsx:28-36 | every entry is meant for some role, and every signed-in user sees the dashboard entry |
| Navigation.AtMostOneActive | src/components/layout/AppSidebar.tsx:101 | the entries' targets are distinct, so for any path at most one entry of any menu is highlighted |
| Navigation.NovaAnaliseOnlyForAnalysts | src/components/layout/AppSidebar.tsx:84 | the new-analysis target is in the menu exactly when the quick action is shown, which is exactly for analysts |
| Navigation.GetRoleLabel | src/components/layout/AppSidebar.tsx:47-54 | a string that is not a role key is shown unchanged |
| Navigation.RoleLabelsAgree | src/components/layout/AppSidebar.tsx:47-54 | each role key is shown under the same label the login page uses, never as the raw key |
| Navigation.FooterRoleLabel | src/components/layout/AppSidebar.tsx:147 | the footer shows the role's label, and the empty string without a user |
| Navigation.DashboardFor | src/pages/Dashboard.tsx:9-19 | nothing without a user; otherwise the operator, secretary and analyst dashboards exactly for the three roles |
| Projects.ContainsIffOccurs | src/pages/Projetos.tsx:96 | the substring test holds exactly when the query occurs at some position |
| Projects.Lower | src/pages/Projetos.tsx:97 | lowering keeps the length and lowers each character |
| Projects.LowerIdempotent | src/pages/Projetos.tsx:97 | lowered text has no capitals, so lowering twice is lowering once |
| Projects.FilteredProjetos | src/pages/Projetos.tsx:95-100 | every listed project matches the query and the status, and the list is no longer than the table |
| Projects.FilteredProjetosExact | src/pages/Projetos.tsx:95-100 | the list is the order-preserving subsequence of exactly the projects matching both tests, and it is the only such list |
| Projects.EmptySearchMatches | src/pages/Projetos.tsx:96-97 | the empty query matches every project |
| Projects.EmptySearch | src/pages/Projetos.tsx:95-100 | with the empty query, `all` keeps the whole table and a status keeps the projects of that status |
| Projects.StatusCountsCount | src/pages/Projetos.tsx:102-105 | each tally entry is the number of projects with that status, and a status has an entry exactly when some project has it |
| Projects.StatusCounts | src/pages/Projetos.tsx:102-105 | every entry of the tally is positive and at most the number of projects |
| Projects.BadgeCount | src/pages/Projetos.tsx:157-159 | a badge never exceeds the number of projects, and a status badge is the number of projects with that status |
| Projects.StatusCountsSum | src/pages/Projetos.tsx:102-105 | the five per-status counts add up to the number of projects |
| Projects.BadgesAgree | src/pages/Projetos.tsx:156-159 | with the empty query each badge equals the number of cards its button shows, and the `all` badge is the sum of the other five |
| Projects.MockProjetos | src/pages/Projetos.tsx:12-78 | the page's table has six projects |
| Projects.MockPage | src/pages/Projetos.tsx:95-159 | on the page's table the empty query with `all` shows all six projects; the badges read 6 for all and 1, 1, 2, 1, 1 for pending, under analysis, approved, rejected and with issues |
| Projects.PendingProjects | src/components/dashboard/AnalystDashboard.tsx:82 | every pending project is waiting for or under analysis |
| Projects.PendingProjectsExact | src/components/dashboard/AnalystDashboard.tsx:82 | the pending list only removes projects, keeps their order, and keeps every pending one |
| Projects.AnalystMockProjetos | src/components/dashboard/AnalystDashboard.tsx:10-43 | the dashboard's table is the first three projects of the projects page's table |
| Projects.MockPendingProjects | src/components/dashboard/AnalystDashboard.tsx:82 | on the dashboard's table the pending projects are those with ids 1 and 2, in that order |
| Projects.FirstName | src/components/dashboard/AnalystDashboard.tsx:89 | the first name is the prefix of the name that has no space and ends at the first space or at the end |
| Projects.FirstNameOfAnalyst | src/components/dashboard/AnalystDashboard.tsx:89 | "Maria Santos" is greeted as "Maria" |
| Projects.GreetingName | src/components/dashboard/AnalystDashboard.tsx:89 | without a user there is no name; otherwise it is the user's first name: the prefix of the name up to its first space, or the whole name |
| Projects.CardActions | src/components/dashboard/ProjectCard.tsx:64-73 | a card never shows both actions, shows neither for approved, rejected or blocked projects, and shows one only for pending work |
| Projects.PendingCardsHaveOneAction | src/components/dashboard/AnalystDashboard.tsx:140-145 | every card of the pending list, which is given an analyse handler, shows exactly one action |
| Projects.MockAnalystLines | src/components/dashboard/ProjectCard.tsx:56 | on the page's table the assigned-analyst line is missing exactly on the pending project, which has no analyst |
| Projects.LabelsDistinct | src/components/dashboard/ProjectCard.tsx:12-25 | the status and type label maps are total, non-empty and tell their values apart |
| Projects.SumConcat | src/components/dashboard/MasterDashboard.tsx:22-23 | the totals fold is additive over concatenated tables |
| Projects.Sum | src/components/dashboard/MasterDashboard.tsx:22-23 | the total is at least each term, and is zero exactly when every term is zero |
| Projects.PrefeiturasAtivas | src/components/dashboard/MasterDashboard.tsx:24 | the number of active municipalities is the count of entries whose status is `ativo`, at most the table's length, and equal to it exactly when all are active |
| Projects.PrefeituraStatusLabel | src/components/dashboard/MasterDashboard.tsx:15-19 | a status has a badge exactly when it is ativo, pendente or inativo |
| Projects.MockTotals | src/components/dashboard/MasterDashboard.tsx:7-24 | on the mock table: 524 projects, 14 analysts, 3 of 5 municipalities active, and every status has a badge |
| Calendar.DaysInMonth | src/pages/Calendario.tsx:73-77 | a month has 28 to 31 days, and February has 29 exactly in Gregorian leap years |
| Calendar.MonthLengthsAgree | src/pages/Calendario.tsx:73-77 | the month lengths agree with the cumulative day table, and the twelve months fill the year |
| Calendar.YearLength | src/pages/Calendario.tsx:73-77 | the day count from the leap-year formula advances by the year's length from one year to the next |
| Calendar.LastDayOfMonth | src/pages/Calendario.tsx:73-77 | day 0 of the next month, across a year end too, is the day `daysInMonth` of this month |
| Calendar.Normalize | src/pages/Calendario.tsx:93-97 | an out-of-range month moves into a valid month of a neighbouring year and denotes the same month |
| Calendar.Weekday | src/pages/Calendario.tsx:79-83 | a weekday is in 0..6 and agrees with the day number modulo 7, with day 0 a Monday |
| Calendar.FirstDayOfMonth | src/pages/Calendario.tsx:79-83 | the first weekday of a month is in 0..6 |
| Calendar.WeekdayAnchors | src/pages/Calendario.tsx:79-83 | 1 January 1970 is a Thursday and 1 January 2024 a Monday |
| Calendar.PrevMonth | src/pages/Calendario.tsx:92-94 | the previous button shows the first of the month before |
| Calendar.NextMonth | src/pages/Calendario.tsx:96-98 | the next button shows the first of the month after |
| Calendar.MonthNavigation | src/pages/Calendario.tsx:92-98 | the two buttons undo each other on the month on view, wrap December and January across years, and reset the day to 1 |
| Calendar.TwoDigitYearJump | src/pages/Calendario.tsx:92-98 | as written, going back from January of year 100 and then forward lands in January 2000 |
| Calendar.AsWrittenAgreesOutsideTwoDigitYears | src/pages/Calendario.tsx:92-98 | outside the years 0 to 99 the buttons as written agree with the model's |
| Calendar.ConstructorYear | src/pages/Calendario.tsx:93 | the constructor reads a year from 0 to 99 as 19xx and leaves other years alone |
| Calendar.PrevMonthAsWritten | src/pages/Calendario.tsx:92-94 | the previous button as written gives the first of a valid month, one month before the month on view after the constructor's year rule is applied |
| Calendar.NextMonthAsWritten | src/pages/Calendario.tsx:96-98 | the next button as written gives the first of a valid month, one month after the month on view after the constructor's year rule is applied |
| Calendar.Grid | src/pages/Calendario.tsx:161-167 | the grid has `firstDayOfMonth` blanks followed by the days 1 to `daysInMonth` in order |
| Calendar.GridColumns | src/pages/Calendario.tsx:150-167 | under the weekday headers starting on Sunday, every day sits in the column of its own weekday |
| Calendar.TasksForDate | src/pages/Calendario.tsx:100-106 | every task of a day is due on that date of the month on view |
| Calendar.TasksForDateExact | src/pages/Calendario.tsx:100-106 | the day's tasks are, in order, exactly the tasks due on it |
| Calendar.SelectedTasks | src/pages/Calendario.tsx:108-113 | without a selected date there are no tasks; otherwise every listed task is due on it |
| Calendar.SelectingADay | src/pages/Calendario.tsx:108-113 | selecting a day of the month on view lists that day's tasks |
| Calendar.HasHighPriority | src/pages/Calendario.tsx:172 | holds exactly when some task of the day has high priority |
| Calendar.DueHighPriority | src/pages/Calendario.tsx:166-172 | the day's list holds a high-priority task exactly when some task due that day has high priority |
| Calendar.Dots | src/pages/Calendario.tsx:191-193 | a day shows one dot per task, at most three, taken from the front of its list |
| Calendar.DotColourOf | src/pages/Calendario.tsx:198 | the selected colour wins over the high-priority colour, which wins over the plain one |
| Calendar.DayMarks | src/pages/Calendario.tsx:166-203 | a day cell shows one dot per task due that day, at most three; the selected colour exactly when the day is selected; the high-priority colour exactly when it is not selected and some task due that day has high priority |
| Calendar.NatToString | src/pages/Calendario.tsx:282 | the decimal rendering of a count is a non-empty string of digits with no leading zero, and it begins with '0' only for 0 |
| Calendar.DigitsRoundTrip | src/pages/Calendario.tsx:282 | reading the rendered digits back gives the number |
| Calendar.IntToString | src/pages/Calendario.tsx:282 | a rendered integer is a minus sign exactly for negative numbers followed by digits only, with no leading zero, and those digits read back as its magnitude |
| Calendar.DueLabel | src/pages/Calendario.tsx:282 | the label is "Hoje" exactly for 0 days, "Amanhã" exactly for 1, and otherwise the rendered count followed by " dias" |
| Calendar.DueLabelInjective | src/pages/Calendario.tsx:282 | different day counts get different labels |
| Calendar.UrgentLabels | src/pages/Calendario.tsx:280 | "Hoje" and "Amanhã" are always urgent, and an urgent non-overdue task is labelled one of them |
| Calendar.TaskLabelsDistinct | src/pages/Calendario.tsx:57-67 | the priority and task-status label maps tell their values apart |

## Left out

- JSX, CSS classes, icons, animation delays and toasts. Only the predicates
  that choose what is shown are modelled. A toast's text appears only where
  it is the visible outcome: the login errors and the demo-login greeting.
- The timers (`setTimeout`) in the analysis and in `login`. Each awaited
  operation is split into two atomic transitions. React's batching of state
  updates is not modelled.
- `localStorage` and JSON. Storage is one abstract slot holding a user or
  nothing, and serialising a user and reading it back is the identity. The
  code does not guard `JSON.parse`, so the model has no recovery from a
  corrupt entry.
- `Math.random` and `Date.now`. The ids and names of uploaded files and the
  `created_at` stamps of demo users and mock projects are opaque inputs
  (`stamps`, `daysAgo`).
- Time zones, `toDateString`, `toLocaleDateString` and the millisecond
  clock. A task deadline is the local calendar date it falls on. `daysUntil`
  is an integer input, because its computation uses floating-point division
  and `Math.ceil`. For the same reason the calendar's mock tasks, whose
  deadlines are relative to the current time, are not modelled, nor is the
  "today" ring.
- Projects.Lower: it lowers only the ASCII letters A to Z. Unicode
  `toLowerCase` also lowers accented capitals. The mock addresses contain
  accented letters, so a query in accented capitals can match in the code
  and not in the model.
- Calendar.Weekday: it counts days over unbounded integers, without the
  limit of about 275,000 years on either side of 1970 beyond which a
  JavaScript date is invalid.
- Calendar.DaysInMonth, Calendar.FirstDayOfMonth, Calendar.TasksForDate,
  Calendar.SelectingADay and Calendar.DayMarks: the constructor's reading of
  years 0 to 99 as 19xx is not applied to them. They take the year on view
  as it is (see Findings).
- The status filter is a datatype with one value per button, not a free
  string. No other string can reach it.
- `AdminDashboard`: its logic is floating-point percentages and static
  figures. `TaskList` is a purely presentational mapping.
- Routing mechanics (`navigate`, `NavLink`, `useLocation`). Only the target
  paths and the highlighted-link rule are modelled.
- The `Empresa` and `Analise` records and the `StatsCard` props of
  `src/types/index.ts`. None of the modelled logic reads them.

## Findings

| source | as written | input that shows it | evidently intended | confidence | as-written member | corrected member |
|---|---|---|---|---|---|---|
| src/pages/Calendario.tsx:92-98 | `prevMonth` and `nextMonth` rebuild the date with `new Date(year, month ± 1)`, and that constructor reads a year from 0 to 99 as 1900 to 1999 | with January of year 100 on view, previous then next shows January 2000 instead of January 100 | the two buttons undo each other for every year | low; not executed (needs about 23,000 clicks back from today) | Calendar.TwoDigitYearJump | Calendar.MonthNavigation |
