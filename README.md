# kristalball client logic in Dafny

kristalball is a military asset management web application. Its React front
end holds the record logic that runs in the browser. This project models
that logic from four components and proves properties of it:

- **Assignments and expenditures** (`AssignmentsExpenditures.dfy`, module
  `AssignmentsExpenditures`):
  - the role-scoped filter pipeline of `fetchData`: base scoping for
    non-admins, then category, status and date filters;
  - the handlers that create, edit, return, re-status and delete
    assignments and record expenditures;
  - the management-role predicate and the asset-availability filter.
- **Purchase register** (`Purchases.dfy`, module `Purchases`):
  - adding a purchase;
  - the search/category filter and the category list;
  - the integer statistics;
  - the text of the CSV report.
- **Login form** (`Login.dfy`, module `Login`): the ordered validation
  chain, the e-mail pattern, field input and the sign-in/sign-up switch.
- **Application shell** (`App.dfy`, module `App`): role-based navigation,
  page dispatch, the icon lookup with its fallback, and the login/logout
  session.

Supporting modules:

- `JsText` states the JavaScript string and number behaviour the
  components rely on: `trim`, ASCII `toLowerCase`, `includes`, `join`,
  `parseInt` and integer-to-string conversion.
- `Seqs` holds `filter`, counting, de-duplication and chains of optional
  filter stages.
- `Users` and `Wrappers` hold the user record and `Option`.

React state becomes class fields:

- `Panel` holds the assignments page state.
- `Register` holds the purchases page state.
- `LoginForm` holds the form state.
- `Session` holds the shell state.

Each `setX(...)` is a field assignment in a method with `modifies this`. The
per-record predicates, maps and aggregates are functions, and the lemmas
beside them state what those functions mean.

The model follows the code as written. The code has no quantity ledger and
no transfer reservations: assignments and expenditures never change an
asset's quantity. The status handler `handleStatusUpdate` checks no
transition itself and applies whatever status it is given;
`StatusUpdateAfterReturn` states this of the handler. The page decides
which records offer the return button and the status selector, and that
rendering is not modelled (see "Left out").

Values the browser supplies are parameters:

- the new record id, which the code takes from `Date.now()`;
- today's date, which the code takes from `new Date()`;
- the answer to the delete confirmation dialog;
- the mock records that `fetchData` and the purchases page load.

## Model

| member | source | states |
|---|---|---|
| AssignmentsExpenditures.ScopeBase | frontend/src/components/AssignmentsExpenditures.js:282 | a non-admin is scoped to their own base name, or to 'Fort Alpha' when it is empty; the scope is never empty |
| AssignmentsExpenditures.VisibleAssignments | frontend/src/components/AssignmentsExpenditures.js:289-321 | the shown assignments are exactly the source assignments that pass every active filter, and there are no more of them than in the source |
| AssignmentsExpenditures.VisibleExpenditures | frontend/src/components/AssignmentsExpenditures.js:289-321 | the shown expenditures are exactly the source expenditures that pass every active filter except status, and there are no more of them than in the source |
| AssignmentsExpenditures.AssignmentStagesAreVisibility | frontend/src/components/AssignmentsExpenditures.js:277-321 | running the five optional assignment stages in order (scope, category, status, start date, end date) keeps exactly the records that satisfy every active stage |
| AssignmentsExpenditures.ExpenditureStagesAreVisibility | frontend/src/components/AssignmentsExpenditures.js:278-321 | the four expenditure stages (no status stage) keep exactly the records that satisfy every active stage |
| AssignmentsExpenditures.NonAdminSeesOwnBase | frontend/src/components/AssignmentsExpenditures.js:280-287 | for a non-admin, every visible assignment and expenditure belongs to the scoped base, and both lists are subsequences of the source lists |
| AssignmentsExpenditures.VisibleAssignmentsMembership | frontend/src/components/AssignmentsExpenditures.js:289-321 | an assignment is shown iff it is in the source, is in scope, its asset name contains the category ignoring case, its status equals the status filter, and its date lies in the inclusive string range; each empty filter is skipped |
| AssignmentsExpenditures.AdminWithoutFiltersSeesAll | frontend/src/components/AssignmentsExpenditures.js:280-321 | an admin with every filter empty sees both lists unchanged |
| AssignmentsExpenditures.InvertedDateRangeKeepsNothing | frontend/src/components/AssignmentsExpenditures.js:305-321 | a start date that sorts after the end date empties both lists |
| AssignmentsExpenditures.SingleDayRangeKeepsThatDay | frontend/src/components/AssignmentsExpenditures.js:305-321 | a range whose start and end are the same date keeps only records of that date |
| AssignmentsExpenditures.SplitAtDateLosesNothing | frontend/src/components/AssignmentsExpenditures.js:305-321 | every record shown without date filters is shown either up to a date or from that date |
| AssignmentsExpenditures.StatusFilterSparesExpenditures | frontend/src/components/AssignmentsExpenditures.js:299-303 | the status filter does not affect the expenditure list |
| AssignmentsExpenditures.FilteredAssignments | frontend/src/components/AssignmentsExpenditures.js:277-321 | the step-by-step reassignment of the assignment list ends with exactly the visible assignments |
| AssignmentsExpenditures.FilteredExpenditures | frontend/src/components/AssignmentsExpenditures.js:278-321 | the step-by-step reassignment of the expenditure list ends with exactly the visible expenditures |
| Seqs.RunStage | frontend/src/components/AssignmentsExpenditures.js:290-297 | one `if (filter) list = list.filter(...)` step extends the stages already run by one; an inactive stage leaves the list as it is |
| Seqs.StageStep | frontend/src/components/AssignmentsExpenditures.js:299-303 | after k stages, stage k filters the list when active and changes nothing when inactive |
| Seqs.FilterSpec | frontend/src/components/AssignmentsExpenditures.js:281-283 | a filtered list is no longer than its input, is a subsequence of it, and holds exactly the input elements that pass |
| AssignmentsExpenditures.AvailableAssets | frontend/src/components/AssignmentsExpenditures.js:829-838 | the picker offers exactly the assets with positive quantity, in their order |
| AssignmentsExpenditures.FindAsset | frontend/src/components/AssignmentsExpenditures.js:359-362 | the lookup finds the first asset whose id equals the parsed id, and finds nothing iff no asset has that id (NaN matches none) |
| AssignmentsExpenditures.SubmitAssignment | frontend/src/components/AssignmentsExpenditures.js:346-368 | the submission is refused, with one of the two messages, iff the asset id or personnel name is empty or no asset has the parsed id; a creation adds one record and an edit keeps the count |
| AssignmentsExpenditures.SubmitAssignmentSpec | frontend/src/components/AssignmentsExpenditures.js:346-426 | the submission is refused with "Please fill in all required fields" iff asset or personnel is empty, and with "Selected asset not found" iff no asset has the parsed id; a creation prepends one 'Active' record for that asset with the old list as tail; an edit keeps the length and every record with another id |
| AssignmentsExpenditures.EditKeepsIdentity | frontend/src/components/AssignmentsExpenditures.js:372-385 | an edited record keeps the id, status, base, author and actual return date of the record being edited, and stores the asset's numeric id |
| AssignmentsExpenditures.CreatedOutsideDefaultScope | frontend/src/components/AssignmentsExpenditures.js:402-416 | a non-admin without a base name creates records under 'Base Alpha' but is scoped to 'Fort Alpha', so by the scope predicate the records they create belong to a base outside their scope |
| AssignmentsExpenditures.SubmitExpenditureSpec | frontend/src/components/AssignmentsExpenditures.js:553-588 | an expenditure is refused iff asset or quantity is empty or no asset has the parsed id; otherwise exactly one record with the parsed quantity and the asset's category is prepended |
| AssignmentsExpenditures.SubmitExpenditure | frontend/src/components/AssignmentsExpenditures.js:553-570 | an expenditure is refused, with one of the two messages, iff the asset id or quantity is empty or no asset has the parsed id; an acceptance adds one record |
| AssignmentsExpenditures.ReplaceById | frontend/src/components/AssignmentsExpenditures.js:390-392 | the edit map replaces every record with the edited id and keeps every other record and the length |
| AssignmentsExpenditures.Returned | frontend/src/components/AssignmentsExpenditures.js:518-526 | a return sets status 'Returned' and the actual return date on the records with the id; all other records and the length are unchanged |
| AssignmentsExpenditures.WithStatus | frontend/src/components/AssignmentsExpenditures.js:537-541 | a status update sets any given status on the records with the id and changes nothing else |
| AssignmentsExpenditures.DeleteSpec | frontend/src/components/AssignmentsExpenditures.js:506 | a delete keeps exactly the records with another id, in order, and shrinks the list by the number of records with that id |
| AssignmentsExpenditures.Deleted | frontend/src/components/AssignmentsExpenditures.js:506 | a delete never lengthens the list and keeps only records of the list whose id differs from the deleted one |
| AssignmentsExpenditures.DeleteAbsentIsIdentity | frontend/src/components/AssignmentsExpenditures.js:506 | deleting an id that no record has leaves the list unchanged |
| AssignmentsExpenditures.ReturnIdempotent | frontend/src/components/AssignmentsExpenditures.js:518-541 | returning twice equals returning once, and a return overrides an earlier status update |
| AssignmentsExpenditures.StatusUpdateAfterReturn | frontend/src/components/AssignmentsExpenditures.js:535-541 | the status handler itself checks no transition: applied to a returned assignment it makes it 'Active' again, and the record keeps its return date |
| AssignmentsExpenditures.Panel.constructor | frontend/src/components/AssignmentsExpenditures.js:10-47 | the page starts with empty lists, no error, empty filters, no edit and empty forms dated today |
| AssignmentsExpenditures.Panel.FetchData | frontend/src/components/AssignmentsExpenditures.js:276-326 | a fetch sets both lists to the visible records for the current filters, stores the assets, clears the error and changes no form state |
| AssignmentsExpenditures.Panel.HandleFilterChange | frontend/src/components/AssignmentsExpenditures.js:615-620 | a filter change sets only the named filter; the lists, assets, error, edit state, both forms and both form flags keep their values |
| AssignmentsExpenditures.Panel.ChangeFilterAndReload | frontend/src/components/AssignmentsExpenditures.js:335-336 | because the fetch depends on the filters, a filter change rebuilds both lists from the source records, so every list holds only source records afterwards; it stores the source assets, clears the error and keeps the edit state, both forms and both form flags |
| AssignmentsExpenditures.Panel.HandleEditAssignment | frontend/src/components/AssignmentsExpenditures.js:486-498 | editing loads the record's fields into the form, remembers the record and opens the form, and keeps both lists, the assets, the error, the filters and the expenditure form; a record without an asset id changes nothing |
| AssignmentsExpenditures.Panel.HandleAssignmentSubmit | frontend/src/components/AssignmentsExpenditures.js:338-452 | a refusal sets the error and changes nothing else; an acceptance stores the new list, resets and closes the form, leaves edit mode and clears the error |
| AssignmentsExpenditures.Panel.HandleDeleteAssignment | frontend/src/components/AssignmentsExpenditures.js:500-512 | a confirmed delete applies the delete filter to the assignments and every other field keeps its value; an unconfirmed one changes nothing |
| AssignmentsExpenditures.Panel.HandleReturnAsset | frontend/src/components/AssignmentsExpenditures.js:514-533 | the list becomes the returned list dated today; every other field keeps its value |
| AssignmentsExpenditures.Panel.HandleStatusUpdate | frontend/src/components/AssignmentsExpenditures.js:535-548 | the list becomes the list with the given status set on the record, whatever its current status; every other field keeps its value |
| AssignmentsExpenditures.Panel.HandleExpenditureSubmit | frontend/src/components/AssignmentsExpenditures.js:550-613 | a refusal sets the error and changes nothing else; an acceptance stores the new list, resets and closes the form and clears the error |
| App.ManageRightsWiderThanNavigation | frontend/src/components/AssignmentsExpenditures.js:648 | only admin, base commander and logistics officer may manage assignments; every role whose bar offers the assignments page may manage them, and a logistics officer may manage them without being offered the page |
| App.NavigationMatchesManageRights | frontend/src/components/AssignmentsExpenditures.js:648 | a role may manage assignments iff its navigation bar has any entry |
| Purchases.NewPurchaseSpec | frontend/src/components/Purchases.js:379-390 | a new purchase carries the given id, status 'Pending', today's date, the form's item, vendor and category and the parsed quantity; an empty description becomes item + " purchase from " + vendor |
| Purchases.NewPurchase | frontend/src/components/Purchases.js:379-390 | a new purchase has the given id, status 'Pending' and today's date, and its description is never empty: without one it starts with the item and ends with the vendor |
| Purchases.AddKeepsSequentialIds | frontend/src/components/Purchases.js:380 | with ids 1..n, appending with id length + 1 keeps the ids 1..n+1 |
| Purchases.SequentialIdsDistinct | frontend/src/components/Purchases.js:380 | sequential ids are pairwise distinct and length + 1 is not among them |
| Purchases.WithFieldSpec | frontend/src/components/Purchases.js:407-412 | an input change stores the value in the named field and in no other |
| Purchases.FilteredPurchases | frontend/src/components/Purchases.js:425-430 | the shown purchases are purchases of the register that match the search and category, and there are no more of them than in the register |
| Purchases.FilteredPurchasesSpec | frontend/src/components/Purchases.js:425-430 | a purchase is shown iff its item or vendor contains the search term ignoring case and the category is 'all' or matches exactly; the shown rows keep their order |
| Purchases.EmptySearchShowsAll | frontend/src/components/Purchases.js:425-430 | an empty search with 'all' selected shows the whole register |
| Purchases.CategoryOptions | frontend/src/components/Purchases.js:432 | the options start with 'all' and include the category of every purchase |
| Purchases.CategoryOptionsSpec | frontend/src/components/Purchases.js:432 | the options start with 'all', then list every category of the register once, in order of first occurrence, and no other |
| Purchases.TotalItemsSpec | frontend/src/components/Purchases.js:439 | the quantity total is NaN iff some quantity is NaN, and otherwise it is the sum of the quantities |
| Purchases.TotalItems | frontend/src/components/Purchases.js:439 | the total is NaN iff some purchase's quantity is NaN |
| Purchases.TotalItemsAppend | frontend/src/components/Purchases.js:439 | adding a purchase adds its quantity to the total |
| Purchases.StatusCountsBounded | frontend/src/components/Purchases.js:441-442 | the delivered and pending counts together never exceed the number of purchases |
| Purchases.DeliveredCount | frontend/src/components/Purchases.js:441 | the delivered count is the length of the list of purchases with status 'Delivered' |
| Purchases.PendingCount | frontend/src/components/Purchases.js:442 | the pending count is the length of the list of purchases with status 'Pending' or 'Processing' |
| Purchases.ComputeStats | frontend/src/components/Purchases.js:436-443 | the purchase count is the register length and the two status counts together fit within it |
| Purchases.UpperCaseStatusesCountNothing | frontend/src/components/Purchases.js:441-442 | the counts compare statuses exactly, so the upper-case statuses of the sample register count as neither delivered nor pending |
| Purchases.ComputeStatsSpec | frontend/src/components/Purchases.js:436-443 | the count equals the register length, the total is NaN iff some quantity is and otherwise sums the quantities, and the two status counts fit within the count |
| Purchases.HeaderColumns | frontend/src/components/Purchases.js:112-113 | the header line splits at commas into the nine column names |
| Purchases.CsvReport | frontend/src/components/Purchases.js:112-126 | the report starts with the header line |
| Purchases.CsvReportLines | frontend/src/components/Purchases.js:113-126 | when no text holds a line break, the report has exactly n line breaks and splits back into the header followed by one row per purchase, in order |
| Purchases.CsvRowCells | frontend/src/components/Purchases.js:115-125 | when no text holds a comma, a row splits back into its nine cells: each text field wrapped in quotes without escaping, quantity and cost bare; the quantity cell parses back to the quantity |
| Purchases.Register.constructor | frontend/src/components/Purchases.js:7-24 | the page starts with the loaded register, an empty form (category 'Weapons', priority 'Medium'), the modal closed, no search and 'all' selected |
| Purchases.Register.HandleAddNewPurchase | frontend/src/components/Purchases.js:373-404 | if item, quantity, cost or vendor is empty, the add alerts "Please fill in all required fields" and changes nothing; otherwise it appends exactly one new purchase with id length + 1, resets the form, closes the modal and alerts success; sequential ids stay sequential |
| Purchases.Register.HandleInputChange | frontend/src/components/Purchases.js:407-412 | only the named form field changes |
| Purchases.Register.GenerateCsvReport | frontend/src/components/Purchases.js:111-126 | the report covers the purchases on screen (search and category applied), and when no text holds a line break it has one line per shown purchase after the header |
| Login.WithField | frontend/src/components/Login.js:98-101 | the named field takes the value and every other field keeps its value |
| Login.DotInRunSpec | frontend/src/components/Login.js:119 | the scan after an '@' finds a '.' exactly when the pattern can place its dot there |
| Login.EmailFromSpec | frontend/src/components/Login.js:119 | the scan from a position succeeds exactly when some match has its '@' at or after that position |
| Login.EmailPatternTestSpec | frontend/src/components/Login.js:119 | the test accepts a string iff it holds a non-space character, an '@', a non-empty run without white space, a '.' and a non-space character, anywhere in the string |
| Login.EmailPatternTest | frontend/src/components/Login.js:119 | a string the pattern accepts has an '@', a '.' and at least five characters |
| JsText.Trim | frontend/src/components/Login.js:111 | trimming never lengthens a string, and neither end of a non-empty result is white space |
| JsText.TrimEmptyIffBlank | frontend/src/components/Login.js:111 | a trimmed string is empty iff the string consists of white space only |
| Login.SignInValidation | frontend/src/components/Login.js:131-140 | sign-in fails with "Username is required" iff the username is blank; otherwise with "Password is required" iff the password is blank; otherwise it passes |
| Login.SignUpValidation | frontend/src/components/Login.js:110-130 | sign-up runs its five checks in order (username, email present, email pattern, password length ≥ 6, confirmation equal), and the first failing check decides the message |
| Login.ValidationError | frontend/src/components/Login.js:109-142 | each mode reports only its own messages; a passing form has a non-blank username, and a passing sign-up has matching passwords of at least three characters |
| Login.BlankPasswordPassesSignUpLength | frontend/src/components/Login.js:123 | six spaces pass the sign-up length check although sign-in rejects them as blank |
| Login.InputChangeTouchesOneField | frontend/src/components/Login.js:96-107 | typing into a field changes only that field, clears the error and keeps the mode and success message |
| Login.ModeSwitchTwice | frontend/src/components/Login.js:201-213 | switching twice restores the mode and leaves the reset form with no messages |
| Login.LoginForm.constructor | frontend/src/components/Login.js:20-34 | the form starts in sign-in mode, with role 'logistics_officer', base id "1" and no messages |
| Login.LoginForm.HandleInputChange | frontend/src/components/Login.js:96-107 | the state becomes the input-changed state |
| Login.LoginForm.ValidateForm | frontend/src/components/Login.js:109-142 | the form passes iff the chain finds no failure; a failure sets its message as the error, and nothing else changes |
| Login.LoginForm.HandleModeSwitch | frontend/src/components/Login.js:201-213 | the mode flips, both messages clear and the form resets to its defaults |
| App.NavItemsByRole | frontend/src/App.js:59-68 | admin and base commander see all four entries, a logistics officer sees every entry except assignments, and any other role sees none |
| App.NavItems | frontend/src/App.js:59-68 | the bar holds only entries of the full bar that list the role, and no more than the full bar |
| App.NavItemsKeepOrder | frontend/src/App.js:67 | the bar holds exactly the entries whose roles include the user's role, in their original order |
| App.AssignmentsEntryOnlyForCommand | frontend/src/App.js:61-64 | the assignments entry appears iff the role is admin or base commander |
| App.RenderedPageSpec | frontend/src/App.js:44-57 | each of the four ids renders its own page, and any other id renders the dashboard |
| App.RenderedPage | frontend/src/App.js:44-57 | the rendered page is the dashboard or the page the id names |
| App.IconNamedInverse | frontend/src/App.js:71-77 | the icon table is keyed by the five icon names and by nothing else |
| App.IconPathSpec | frontend/src/App.js:70-79 | a known icon name draws its own path and any other name draws the chart's; every navigation entry names a known icon |
| App.IconPath | frontend/src/App.js:70-79 | the icon drawn is the one the name selects, or the chart |
| App.Session.constructor | frontend/src/App.js:9-11 | the session starts with no user, no token and the dashboard page |
| App.Session.ShowsLogin | frontend/src/App.js:40-42 | the application is shown only with a user and a non-empty token |
| App.Session.HandleLogin | frontend/src/App.js:24-30 | login sets the user and token and goes to the dashboard; the login screen is shown iff the token is empty, and otherwise the dashboard is on screen |
| App.Session.HandleLogout | frontend/src/App.js:32-38 | logout clears user and token, goes to the dashboard and brings back the login screen |
| App.Session.Navigate | frontend/src/App.js:47 | navigation sets only the current page |
| JsText.ParseIntNumberToString | frontend/src/components/Purchases.js:383 | an integer written as text and parsed back with `parseInt` gives the same integer |
| JsText.ParseInt | frontend/src/components/AssignmentsExpenditures.js:361 | a blank string parses to NaN, and a number is read only from a string holding a digit |
| JsText.Contains | frontend/src/components/Purchases.js:426-427 | `includes` holds iff the needle occurs at some position of the text |
| JsText.StringLessEq | frontend/src/components/AssignmentsExpenditures.js:305-321 | the date comparison orders a prefix before every string it starts |
| JsText.SplitJoin | frontend/src/components/Purchases.js:113 | splitting a join at its separator gives back the parts when no part contains the separator |

## Left out

- Floating point is not modelled:
  - `cost` in a purchase and `cost_per_unit` in an expenditure are kept as the text typed into the form, not as the result of `parseFloat(...)`. The CSV cost cell is that text.
  - `total_cost`, `totalValue` and `avgCostPerItem` are not modelled, because they are float arithmetic.
- The sample register stores costs as numbers. The model receives them as their decimal text.
- Purchases.TotalItemsSpec: the total is stated over unbounded integers. Quantities beyond 2^53, where JavaScript addition rounds, are not modelled.
- JsText.ParseInt: reads digit strings into unbounded integers. `parseInt` rounds values beyond 2^53 to the nearest double, which is not modelled. `JsText.NumberToString` prints integers in plain decimal, without JavaScript's exponent form for very large values.
- JsText.ToLower: lower-cases ASCII letters only. Unicode case mapping is not modelled.
- JsText.StringLessEq: compares characters as single code units. JavaScript compares UTF-16 code units, so characters outside the Basic Multilingual Plane may order differently.
- App.IconPath: returns which table entry is drawn (the `Icon` value), not the SVG path text; the path data themselves are not reproduced.
  - Object keys inherited from the prototype (such as `toString`) are not modelled as lookups that succeed.
- `localStorage` is not modelled: the saved session restored on load, and the storage writes in login and logout.
- No I/O is modelled: `fetch` calls, the sign-in/sign-up submission in `Login.js`, toasts, `console` logging, the Blob download of the CSV and the PDF report window.
- JSX rendering is not modelled, including which buttons a role sees. Only `canManageAssignments` itself is modelled, as `CanManageAssignments`.
  - The page offers the RETURN button only for 'Active' records (AssignmentsExpenditures.js:1149).
  - It hides the status selector for 'Returned' records (AssignmentsExpenditures.js:1160).
  - The selector offers only 'Active', 'On Hold', 'Extended' and 'Overdue' (AssignmentsExpenditures.js:1167-1170).
  - The model's handlers accept any record and any status, as the handlers in the code do.
- The `loading` flags and the `setTimeout` delays are not modelled. `Register.constructor` is the state after the delay.
- `handleViewAssignment` and the details modal are not modelled, because they only display a record.
- `fetchData` also runs again when `user` or `activeTab` changes. Only a rerun after a filter change is modelled, as `ChangeFilterAndReload`.
- The `catch` branch of `fetchData` is not modelled: the mock data cannot throw there.
- The dashboard, the transfers page, the API client, the server and the configuration file are not part of this model.
