# Smart City Platform: a Dafny model of the portal's logic

The Smart City Platform is a browser portal. Visitors log in as an
administrator or a user. Each role gets a dashboard of pages, and each page
keeps its own in-memory records. Once the markup is removed, what remains is
a set of small sequential state machines. This project models them as
immutable datatypes and pure transition functions, one module per source
file, and proves what each handler promises.

- **Record stores.**
  - `PublicServices`: the admin service directory. Add appends, delete
    filters by id, and a status change maps over the list by id.
  - `ReportIssue`: issue reports. Submit checks four fields and prepends.
  - `Feedback`: feedback entries. Submit checks the text and a rating gate,
    then prepends. The module also covers the five-star widget and its
    0..5 rating invariant.
- **Read-only views.**
  - `CityDetails`: case-insensitive search over the service list.
  - `Infrastructure`: status tallies, category tabs and status labels.
- **Edit mode.** `CityInfo` models the viewing/editing toggle that gates
  edits to the city record.
- **Session and navigation.**
  - `Session`: the two stored keys, role and email.
  - `Login`: the two login handlers.
  - `Dashboard`: the sidebar's active-item rule and logout.
  - `Routes`: the route tree, as a total resolver over path segments.
- **Shared helpers.**
  - `Seqs`: `filter` and the order relations it keeps.
  - `Text`: `toLowerCase`, `toUpperCase`, `includes` and `startsWith`.
  - `Optional`: an option type.
  - `Toasts`: the toast each handler shows, with its exact text.

Each handler is a function from the old page state and the handler's input
to the new state and a toast. Values the source takes from the clock are
parameters: ids from `Date.now()` and dates from `new Date()`. So is the
stored session.

Delete removes every record carrying the id: the handler is
`services.filter(s => s.id !== id)`, and ids are clock readings that need
not be unique. `PublicServices.DeleteRemovesEveryCopy` states the shrink
exactly: by the number of records with that id, so by one when the id is
unique.

The route tree has no guard. `Routes.Resolve` takes the path and nothing
else, so no session can change which screen a path shows, and anyone who
opens an admin path sees the admin page.

## Model

| member | source | states |
|---|---|---|
| PublicServices.NewService | src/app/pages/admin/PublicServicesManagement.tsx:85-94 | The new record takes the given id and the draft's name and category. It takes the draft's status, or operational when none is set. A missing location, contact, hours or description becomes "". |
| PublicServices.AddService | src/app/pages/admin/PublicServicesManagement.tsx:83-100 | If name or category is missing or empty, the page is unchanged and no toast is shown. Otherwise the list grows by exactly one record at the end, the earlier records are kept in order, the draft resets to `{status: operational}`, the dialog closes and "Service added successfully" is shown. |
| PublicServices.RejectedAddKeepsDialog | src/app/pages/admin/PublicServicesManagement.tsx:83-84 | A rejected add leaves the dialog open and the list unchanged. |
| PublicServices.AddFromFreshDraft | src/app/pages/admin/PublicServicesManagement.tsx:79-97 | From the initial draft, typing a name and a category and adding appends an operational record whose other fields are empty. |
| PublicServices.DeleteService | src/app/pages/admin/PublicServicesManagement.tsx:102-105 | A record is in the result iff it was in the list and has a different id. The result is an order-preserving subsequence. Draft and dialog are unchanged, and "Service deleted" is shown. |
| PublicServices.DeleteAbsent | src/app/pages/admin/PublicServicesManagement.tsx:103 | Deleting an id that no record carries leaves the page identical. |
| PublicServices.DeleteRemovesEveryCopy | src/app/pages/admin/PublicServicesManagement.tsx:103 | The list shrinks by the number of records carrying the id, so by exactly one when the id is unique. |
| PublicServices.ChangeStatus | src/app/pages/admin/PublicServicesManagement.tsx:107-110 | Length and order are kept. A record with the id gets the new status and keeps every other field. Other records are untouched. Draft and dialog are unchanged, and "Status updated" is shown. |
| PublicServices.ChangeStatusIdempotent | src/app/pages/admin/PublicServicesManagement.tsx:108 | Applying the same (id, status) twice equals applying it once. |
| PublicServices.ChangeStatusAbsent | src/app/pages/admin/PublicServicesManagement.tsx:108 | A status change for an id no record carries leaves the page identical. |
| PublicServices.DeleteAfterChangeStatus | src/app/pages/admin/PublicServicesManagement.tsx:102-109 | Deleting an id after changing its status gives the same list as deleting it directly. |
| PublicServices.EditDraft | src/app/pages/admin/PublicServicesManagement.tsx:145-199 | A dialog input sets exactly its own draft field. The status, the list and the dialog are unchanged. |
| PublicServices.SetDialogOpen | src/app/pages/admin/PublicServicesManagement.tsx:127 | Opening or closing the dialog keeps the list and the draft. |
| Text.ContainsIff | src/app/pages/user/CityDetails.tsx:94-96 | The left-to-right `includes` search succeeds exactly when the needle occurs at some offset. |
| Text.Contains | src/app/pages/user/CityDetails.tsx:94-96 | A needle that is found is no longer than the text, and the empty needle is found in every text. |
| Text.Lower | src/app/pages/user/CityDetails.tsx:94-96 | Lower-casing keeps the length, maps each character on its own, and leaves no ASCII capital letter. |
| CityDetails.Matches | src/app/pages/user/CityDetails.tsx:94-96 | A service matches iff the lower-cased query occurs at some offset of its lower-cased name, category or description. The empty query matches every service. |
| CityDetails.Search | src/app/pages/user/CityDetails.tsx:93-97 | A service is listed iff the lower-cased query occurs in its lower-cased name, category or description. The list is an order-preserving subsequence of the services. The empty query lists every service. |
| CityDetails.SearchIgnoresCase | src/app/pages/user/CityDetails.tsx:94-96 | Queries with the same lower-case form list the same services. |
| CityDetails.SearchNarrows | src/app/pages/user/CityDetails.tsx:93-97 | If q1 occurs in q2, the result for q2 is a subsequence, and a subset, of the result for q1. |
| CityDetails.HospitalQuery | src/app/pages/user/CityDetails.tsx:93-97 | On the page's five-service list, "hospital" lists exactly the City Hospital record. |
| Infrastructure.SeedReadingsArePercentages | src/app/pages/admin/InfrastructureMonitoring.tsx:19-74 | Every seed reading has capacity 100 and usage within 0..100. |
| Infrastructure.Count | src/app/pages/admin/InfrastructureMonitoring.tsx:102-104 | A tally is at most the number of items. It is zero exactly when no item has that status. |
| Infrastructure.CountsCoverItems | src/app/pages/admin/InfrastructureMonitoring.tsx:102-104 | good + warning + critical equals the number of items, for every list. |
| Infrastructure.SeedCounts | src/app/pages/admin/InfrastructureMonitoring.tsx:102-104 | On the seed readings the tallies are 4 good, 1 warning and 1 critical. |
| Infrastructure.SeedWarnings | src/app/pages/admin/InfrastructureMonitoring.tsx:103 | Only the internet connectivity reading is in the warning state. |
| Infrastructure.SeedCriticals | src/app/pages/admin/InfrastructureMonitoring.tsx:104 | Only the street lighting reading is critical. |
| Infrastructure.CategoryTab | src/app/pages/admin/InfrastructureMonitoring.tsx:206-209 | A category tab shows exactly the items of that category, in their original order. |
| Infrastructure.Shown | src/app/pages/admin/InfrastructureMonitoring.tsx:157-209 | The "all" tab shows every item. A category tab shows the items of its category. |
| Infrastructure.SeedCategoriesAreTabs | src/app/pages/admin/InfrastructureMonitoring.tsx:206 | Every seed category is one of the four tab names. |
| Infrastructure.TabsPartitionItems | src/app/pages/admin/InfrastructureMonitoring.tsx:206-209 | When every category is a tab name, the four tab sizes sum to the number of items. |
| Infrastructure.SeedTabsCoverAll | src/app/pages/admin/InfrastructureMonitoring.tsx:165-209 | On the seed readings, every item appears under some category tab, and the tab sizes sum to the "all" list's size. |
| Text.Capitalize | src/app/pages/admin/InfrastructureMonitoring.tsx:182 | Capitalising keeps the length and every character after the first. A non-empty result never starts with a lower-case letter. |
| Infrastructure.StatusLabel | src/app/pages/admin/InfrastructureMonitoring.tsx:182 | The badge is the status name with its first character upper-cased and the rest unchanged. |
| Infrastructure.StatusLabels | src/app/pages/admin/InfrastructureMonitoring.tsx:182 | The three badges read Good, Warning and Critical. |
| ReportIssue.Submit | src/app/pages/user/ReportIssue.tsx:55-83 | If title, category, description or location is empty, the page is unchanged and the error toast is shown. Otherwise exactly one issue is prepended and the old list is exactly the tail. The new issue is pending, carries the given id and date, and copies the draft's five fields. The draft resets to empty strings with medium priority. |
| ReportIssue.EditDraft | src/app/pages/user/ReportIssue.tsx:129-189 | A form input sets exactly its own draft field. The priority and the list are unchanged. |
| ReportIssue.ChoosePriority | src/app/pages/user/ReportIssue.tsx:160 | The priority select sets only the draft's priority. |
| ReportIssue.RunKeepsReportedIssues | src/app/pages/user/ReportIssue.tsx:55-83 | After any sequence of user actions, the issues listed before are still the tail of the list, unchanged. Every issue in front of them is pending, so no handler changes an existing issue's status. |
| ReportIssue.PriorityNeverValidated | src/app/pages/user/ReportIssue.tsx:58 | With the other four fields filled, every priority is accepted and recorded. |
| ReportIssue.ReportFromEmptyDraft | src/app/pages/user/ReportIssue.tsx:47-82 | Starting from the initial draft, filling the four fields and submitting prepends a medium-priority pending issue and resets the draft. |
| ReportIssue.MissingFieldRefused | src/app/pages/user/ReportIssue.tsx:58-61 | Emptying any one of the four checked fields makes a submit leave the page unchanged. |
| Feedback.Submit | src/app/pages/user/ProvideFeedback.tsx:53-79 | If subject, category or message is empty, or the rating is 0, the page is unchanged and the error toast is shown. Otherwise one entry is prepended with status submitted, copying subject, category, rating and message. The draft resets to empty strings and rating 0. |
| Feedback.EditDraft | src/app/pages/user/ProvideFeedback.tsx:121-164 | A form input sets exactly its own draft field. The rating, the hover and the list are unchanged. |
| Feedback.ClickStar | src/app/pages/user/ProvideFeedback.tsx:92 | A click on the form's star k sets the draft rating to k. Clicks on a listed entry's stars change nothing. |
| Feedback.HoverStar | src/app/pages/user/ProvideFeedback.tsx:93 | Entering the form's star k sets the hovered rating to k. Elsewhere nothing changes. |
| Feedback.LeaveStar | src/app/pages/user/ProvideFeedback.tsx:94 | Leaving a form star clears the hovered rating to 0. Elsewhere nothing changes. |
| Feedback.InitialValid | src/app/pages/user/ProvideFeedback.tsx:23-51 | The initial page satisfies the rating invariant: draft and hover ratings in 0..5, every entry rated 1..5. |
| Feedback.StepKeepsValid | src/app/pages/user/ProvideFeedback.tsx:53-95 | Every handler preserves the rating invariant. |
| Feedback.RunKeepsValid | src/app/pages/user/ProvideFeedback.tsx:44-95 | After any sequence of user actions, the draft rating stays in 0..5 and every accepted entry is rated 1..5. |
| Feedback.ClickThenSubmit | src/app/pages/user/ProvideFeedback.tsx:56-71 | With the text filled in, clicking star k and submitting succeeds and records rating k. |
| Feedback.NoStarRefused | src/app/pages/user/ProvideFeedback.tsx:56-59 | With rating 0, a submit is refused with no change, however complete the text is. |
| Feedback.ShownRating | src/app/pages/user/ProvideFeedback.tsx:88 | In the form, the widget shows the hovered star if it is nonzero and the chosen rating otherwise. On an entry it shows the entry's rating. On a valid page the form's value is in 0..5. |
| Feedback.Stars | src/app/pages/user/ProvideFeedback.tsx:84-88 | The widget always draws five stars. The filled stars form an unbroken run from the left, and the first is filled iff the shown rating is at least 1. |
| Feedback.StarsShowRating | src/app/pages/user/ProvideFeedback.tsx:84-88 | For a shown rating r in 0..5, stars 1..r are filled, the rest are not, and exactly r are filled. |
| Feedback.HoverIsPreview | src/app/pages/user/ProvideFeedback.tsx:88-94 | Hovering star k shows k without changing the draft. Leaving shows the chosen rating again. |
| CityInfo.Set | src/app/pages/admin/CityInfoManagement.tsx:62-134 | A field edit gives that field the typed value and keeps all seven other fields. |
| CityInfo.SetOwnValue | src/app/pages/admin/CityInfoManagement.tsx:67 | Writing a field's own value back leaves the record unchanged. |
| CityInfo.SetTwice | src/app/pages/admin/CityInfoManagement.tsx:67 | Of two writes to one field, the later wins. |
| CityInfo.Press | src/app/pages/admin/CityInfoManagement.tsx:24-37 | The button flips viewing and editing and never changes the data. Entering edit mode shows no toast. Saving shows "City information updated successfully". |
| CityInfo.Type | src/app/pages/admin/CityInfoManagement.tsx:62-134 | In edit mode a keystroke sets exactly its field. In viewing mode the input is disabled and the page is unchanged. |
| CityInfo.PressTwice | src/app/pages/admin/CityInfoManagement.tsx:24-37 | Two presses from viewing return to viewing with the data unchanged. |
| CityInfo.DataChangesOnlyWhileEditing | src/app/pages/admin/CityInfoManagement.tsx:62-134 | A step that changes the data is a keystroke made in edit mode. |
| CityInfo.ViewingIgnoresTyping | src/app/pages/admin/CityInfoManagement.tsx:62-134 | Without a button press, any amount of typing leaves a viewing page unchanged. |
| CityInfo.EditOneField | src/app/pages/admin/CityInfoManagement.tsx:24-37 | Press, type into one field, press again: the page is back in viewing mode with only that field changed. |
| Login.SetField | src/app/pages/Login.tsx:73-115 | Each input sets exactly its own field of the form. |
| Login.Landing | src/app/pages/Login.tsx:25 | A role's landing path is the single segment of the role's stored name. |
| Login.SignIn | src/app/pages/Login.tsx:18-42 | There is a navigation target iff email and password are both non-empty. On success the session holds the role and the email and the target is the role's section. Otherwise the session is unchanged and the error toast is shown. |
| Login.AdminLogin | src/app/pages/Login.tsx:18-29 | A non-empty admin email and password give role admin and that email, a target of /admin, and "Admin login successful!". If either is empty, the session is unchanged, there is no navigation, and the error toast is shown. |
| Login.UserLogin | src/app/pages/Login.tsx:31-42 | A non-empty user email and password give role user and that email, a target of /user, and "Login successful!". If either is empty, the session is unchanged, there is no navigation, and the error toast is shown. |
| Login.PasswordNeverStored | src/app/pages/Login.tsx:21-23 | Two accepted passwords give identical outcomes, so the password never reaches the session. |
| Login.LoginOverwrites | src/app/pages/Login.tsx:22-23 | An accepted login gives the same outcome whatever session was stored before. |
| Login.TabsIndependent | src/app/pages/Login.tsx:13-16 | Typing into one tab's fields does not change the other tab's handler result. |
| Login.LandingPages | src/app/routes.ts:20-35 | The admin landing resolves to city-info management inside the admin dashboard. The user landing resolves to city details inside the user dashboard. |
| Login.EmptyFormRefused | src/app/pages/Login.tsx:13-16 | The initial empty form is refused on both tabs, with no change and no navigation. |
| Dashboard.IsActive | src/app/components/DashboardLayout.tsx:44-47 | An item is active iff its path is the current pathname, or it is exactly "/admin" (or "/user") and the pathname starts with that string. The `includes` tests never decide the outcome. |
| Dashboard.OnlyRootsMatchByPrefix | src/app/components/DashboardLayout.tsx:45-47 | An item that is neither the current path nor a bare section root is inactive. |
| Dashboard.PrefixCrossesSegments | src/app/components/DashboardLayout.tsx:46 | The prefix test is a raw string test: "/administrator" activates an "/admin" item. |
| Dashboard.ActiveItems | src/app/components/DashboardLayout.tsx:44-47 | The highlighted items are exactly the sidebar items the rule marks active. |
| Dashboard.AtMostOneActive | src/app/components/DashboardLayout.tsx:45-47 | With distinct paths and no bare section root, at most one item is active, and its path is the current pathname. |
| Dashboard.AdminNavShape | src/app/pages/admin/AdminDashboard.tsx:6-22 | The admin sidebar's paths are distinct, and none is a bare section root. |
| Dashboard.UserNavShape | src/app/pages/user/UserDashboard.tsx:6-22 | The user sidebar's paths are distinct, and none is a bare section root. |
| Dashboard.SidebarsHighlightAtMostOne | src/app/components/DashboardLayout.tsx:44-47 | Neither shipped sidebar ever highlights two items. |
| Dashboard.NoneActive | src/app/components/DashboardLayout.tsx:45-47 | With no bare section root, a pathname that no item links to highlights nothing. |
| Dashboard.SectionRootsHighlightNothing | src/app/components/DashboardLayout.tsx:45-47 | On "/admin" the admin sidebar highlights nothing, and on "/user" the user sidebar highlights nothing. |
| Dashboard.Logout | src/app/components/DashboardLayout.tsx:21-26 | Logout removes role and email whatever the prior session, targets "/", and shows "Logged out successfully". |
| Dashboard.LogoutIdempotent | src/app/components/DashboardLayout.tsx:21-26 | Logging out twice equals logging out once, and the target resolves to the login page. |
| Routes.Resolve | src/app/routes.ts:14-43 | Only the empty path reaches the login page. Only login and not-found render outside a dashboard. A dashboard screen comes from a path of one or two segments starting with that section's segment. The resolver is pinned to the table by Routes.ResolveTableEntries, Routes.ResolvedIsInTable and Routes.ResolveOutsideTable. |
| Routes.TablePathsDistinct | src/app/routes.ts:14-43 | No path appears twice in the flattened route table. |
| Routes.AdminRoutes | src/app/routes.ts:20-29 | "/admin" and "/admin/city-info" both resolve to city-info management inside the admin dashboard. Public-services and infrastructure each resolve to their own page. |
| Routes.UserRoutes | src/app/routes.ts:30-39 | "/user" and "/user/city-details" both resolve to city details inside the user dashboard. Report-issue and feedback each resolve to their own page. |
| Routes.ResolveTableEntries | src/app/routes.ts:14-43 | The tree resolver gives each table path its table screen, including "/" as the login page. |
| Routes.ResolvedIsInTable | src/app/routes.ts:14-43 | Any path that does not resolve to the catch-all is a table entry, with the same screen. |
| Routes.ResolveOutsideTable | src/app/routes.ts:40 | Every path outside the table resolves to not-found, rendered outside any dashboard. |
| Routes.SectionRootsAlias | src/app/routes.ts:20-35 | Each section's index and its explicitly named first child resolve to the same screen. |
| Routes.UnknownSectionChild | src/app/routes.ts:40 | A path of three or more segments under a section resolves to not-found. |

## Left out

- Markup, CSS classes, icons and the colour helpers (`getStatusColor`, `getPriorityColor`, `getStatusIcon`, `getCategoryIcon`): presentation only.
- Toast display: each handler returns the toast it would show, as a tag and its message, and nothing more is modelled.
- `localStorage`: the session is an explicit value passed in and returned, not browser storage.
- `Date.now()` ids and `new Date().toISOString()` dates: they are parameters, and no uniqueness is assumed.
- Navigation: a handler returns its target path, and the router's effect of going there is not modelled.
- react-router internals: case-insensitive matching, trailing slashes, empty segments and `Outlet` rendering. The resolver works on pre-split segments.
- Sidebar links against routes: nav items keep the source's pathname strings, and the link from those strings to the resolver's segments is not proved.
- Browser-side `required` and `type="email"` checks: they run outside the handlers, so a handler here accepts any non-empty text.
- The category and priority selects: the model accepts any category text, because the handlers never check it against the listed options.
- Text.Lower: models `toLowerCase` and `toUpperCase` on ASCII letters only; other characters are left unchanged. Full Unicode case mapping is not modelled.
- src/app/pages/Root.tsx is not part of this model. NotFound.tsx is markup only; the model stops at the `NotFound` page name.
- AdminDashboard.tsx and UserDashboard.tsx: only their navigation arrays appear, as constants.
- The "Quick Stats" numbers, the amenity counts and the city summary on the city-details page: fixed display values with no logic.
- The "N / 5" rating caption on the feedback form: string formatting of a number that is already modelled as the draft rating.
