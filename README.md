# Car-rental admin console: the pages' list logic in Dafny

The console is a React single-page application. Its Staff, Notifications,
Users, Vehicles, Bookings, dashboard and Settings pages each fetch a list from
the rental API and keep it in component state. Each page then re-implements a
little list logic of its own:

- a fixed-size paginator with Prev/Next moves;
- a compressed page-number bar with ellipses (Staff, Notifications);
- a case-insensitive search (Staff);
- local edits: merge-at-index and delete-at-index (Users); edit-by-id,
  append and delete-by-id (Vehicles); delete-by-id (Notifications);
- small mappers: badge colours, the spreadsheet export row, the
  comma-separated image-URL field, the payment-status tally, and the
  password checks and session merge of the Settings page.

This project models that logic and proves what it promises.

Layout:

- `wrappers.dfy`: `Option` and `Response`. A remote call's outcome is a
  `Response`: it either failed, or answered with an envelope whose list
  field may be absent.
- `seqs.dfy`: filtering and removal by position, with order preservation.
- `records.dfy`: JavaScript objects as `map<string, string>`; spread,
  `obj[key] || fallback` and delete-by-`_id`.
- `text.dfy`: `toLowerCase`, `includes`, `split`, `join` and `trim`.
- `paging.dfy`: the shared paginator arithmetic and the two styles of
  Prev/Next handler: guarded (`current > 1 && …`) and clamped
  (`Math.max`/`Math.min`).
- `page_window.dfy`: the compressed page bar. The method `RenderItems`
  follows the source's Set-fill / sort / `forEach` with `lastPage`, and is
  proved against the functions `WindowSet` and `Layout`.
- One file per page. Each has a class holding the component's state, whose
  methods are the handlers (they `modify` that state), plus the page's pure
  mappers and lemmas.

Everything the browser or the server supplies is a parameter:

- fetch and axios results;
- `window.confirm`;
- `Math.random` ids and `new Date()` timestamps;
- the session copy of the admin.

Where the written behaviour and the documented behaviour disagree, the model
follows the code. Two examples:

- A Staff search with an empty query still drops records that lack the
  searched field, because `undefined?.toLowerCase()` never matches.
- The Notifications page does not move the current page after a delete
  (see "## Findings").

## Model

| member | source | states |
|---|---|---|
| Paging.TotalPages | src/pages/Staff.jsx:45 | `Math.ceil(n / size)`: the least page count whose pages hold all `n` rows; zero exactly when the list is empty |
| Paging.PageSlice | src/pages/Staff.jsx:42-44 | The visible page is at most `size` rows. Row `i` is list element `(page-1)*size + i`. It holds `min(size, n - first)` rows, or none once the page starts past the end |
| Paging.RowAddress | src/pages/Users.jsx:173-175 | Row `i` of the visible page is the list element at global index `(page-1)*size + i` |
| Paging.FirstPageSize | src/pages/Bookings.jsx:57-60 | The first page holds `min(n, size)` rows |
| Paging.LastPageSize | src/pages/Notifications.jsx:40-43 | The last page holds `n - size*(totalPages-1)` rows, between 1 and `size` |
| Paging.PagesUpToIsPrefix | src/pages/Users.jsx:90-93 | Pages 1..k laid end to end are the list's first `min(k*size, n)` rows |
| Paging.PagesCoverList | src/pages/Users.jsx:90-93 | Pages 1..totalPages laid end to end give back the list: no row lost, repeated or reordered |
| Paging.PageEmptyIffPastEnd | src/pages/Staff.jsx:42-45 | A page is empty exactly when its number exceeds totalPages |
| Paging.GuardedMoves | src/pages/Staff.jsx:104-112 | From a page in range, guarded Prev/Next stay in range and move by exactly one. Prev moves iff current > 1; Next moves iff current < totalPages |
| Paging.ClampedAgreesWithGuarded | src/pages/Notifications.jsx:86-93 | From a page in range, the `Math.max`/`Math.min` handlers equal the guarded ones |
| Paging.ClampedNextRecovers | src/pages/Notifications.jsx:93 | With at least one page, clamped Next lands in range from any page, even a stale page past the end |
| Paging.MovesStayPositive | src/pages/Bookings.jsx:64-70 | No Prev or Next handler takes the page below 1 |
| Paging.DisabledMatchesGuard | src/pages/Bookings.jsx:134-145 | On a page in range (or page 1 of an empty list), Prev is disabled iff its handler would not move. The same holds for Next with `currentPage === totalPages \|\| totalPages === 0` |
| PageWindow.AddToSet | src/pages/Staff.jsx:64-77 | `Set.add` on an insertion-ordered set: members become old members plus `x`; no duplicate appears; size grows by at most one |
| PageWindow.InsertSorted | src/pages/Staff.jsx:80 | One insertion step of the numeric sort keeps a sorted sequence sorted |
| PageWindow.InsertStrict | src/pages/Staff.jsx:80 | Inserting a new number into a strictly increasing sequence keeps it strictly increasing |
| PageWindow.InsertPermutes | src/pages/Staff.jsx:80 | Insertion adds exactly one occurrence of the number (multiset) |
| PageWindow.SortAscending | src/pages/Staff.jsx:80 | `sort((a, b) => a - b)`: same length and members, sorted; strictly increasing when the input has no duplicates |
| PageWindow.SortPermutes | src/pages/Staff.jsx:80 | The sort is a permutation of its input (multiset equality) |
| PageWindow.FillPageSet | src/pages/Staff.jsx:64-77 | The Set-filling steps yield distinct numbers, at most five. Their members are exactly {1, last if more than one page, current-1 if current > 1, current, current+1 if below the last} |
| PageWindow.PushPageItems | src/pages/Staff.jsx:82-99 | The `forEach` loop with `lastPage` produces exactly `Layout(sortedPages)`: per page, an ellipsis on a gap greater than one, then its button |
| PageWindow.RenderItems | src/pages/Staff.jsx:63-99 | The bar's buttons are strictly increasing, at most five, exactly the page set's members, laid out with ellipses on the gaps |
| PageWindow.LayoutPages | src/pages/Staff.jsx:82-99 | The buttons of a layout are exactly the sorted pages it was built from, in order |
| PageWindow.LayoutActive | src/pages/Staff.jsx:88-96 | A button is active exactly when its page is the current page, and every page has its button |
| PageWindow.LayoutEllipsis | src/pages/Staff.jsx:82-99 | An ellipsis precedes a shown page iff the page exceeds the previously shown one (0 for the first) by more than one; there are no other ellipses |
| PageWindow.StepEllipsis | src/pages/Staff.jsx:84-86 | One step pushes an ellipsis only before its own page, and only on a gap |
| PageWindow.WindowInRange | src/pages/Notifications.jsx:49-61 | For a current page in [1, totalPages], every shown number lies in [1, totalPages] |
| PageWindow.WindowMembers | src/pages/Staff.jsx:66-77 | For a page in range, the bar shows 1, totalPages, current and its in-range neighbours, and nothing else |
| PageWindow.WindowAtLeastOne | src/pages/Staff.jsx:75 | With current >= 1, no shown number is below 1 (the `current > 1` guard on `current - 1`) |
| PageWindow.NoLeadingEllipsis | src/pages/Staff.jsx:82-86 | The first shown page is 1, so the bar never opens with an ellipsis |
| PageWindow.SmallTotalsShowEveryPage | src/pages/Notifications.jsx:51-58 | With at most three pages, every page gets a button |
| Seqs.Filter | src/pages/Staff.jsx:53-55 | `Array.filter`: keeps exactly the passing elements, each as often as it occurs in the input |
| Seqs.FilterIsSubsequence | src/pages/Staff.jsx:53-55 | `filter` keeps the survivors in their original order |
| Seqs.RemoveAt | src/pages/Users.jsx:81 | `filter((_, i) => i !== index)`: one fewer element. Elements before `index` stay; those after shift down by one |
| Records.Merge | src/pages/Users.jsx:54 | `{ ...base, ...over }`: every key of either; the right side wins; the rest of the left is kept |
| Records.FieldOr | src/pages/Staff.jsx:253-259 | `obj[key] \|\| fallback`: the field when present and non-empty, otherwise the fallback |
| Records.RemoveById | src/pages/Notifications.jsx:32 | `filter((n) => n._id !== id)`: keeps exactly the records with another id, each as often as before |
| Records.RemoveByIdKeepsOrder | src/pages/Notifications.jsx:32 | Deleting by id keeps the others in their original order |
| Records.RemoveAbsentId | src/pages/Notifications.jsx:32 | Deleting an id no record carries leaves the list unchanged |
| Records.RemoveUniqueId | src/pages/Notifications.jsx:32 | With unique ids, deleting row `i`'s id removes that row and only that row |
| Text.Lower | src/pages/Staff.jsx:54 | `toLowerCase` keeps the length and lowers each letter in place |
| Text.IncludesIffOccurs | src/pages/Staff.jsx:54 | `includes` holds iff the needle occurs at some position of the haystack |
| Text.EmptyIsIncluded | src/pages/Staff.jsx:54 | Every string includes the empty query |
| Text.Split | src/pages/Vehicles.jsx:93 | `split(',')` gives at least one piece, none containing the separator |
| Text.SplitAtSeparator | src/pages/Vehicles.jsx:93 | Splitting `a + ',' + b` with comma-free `a` gives `a` followed by the pieces of `b` |
| Text.Trim | src/pages/Vehicles.jsx:93 | `trim()` returns the contiguous slice of the input left after cutting whitespace (ECMAScript's whitespace and line terminators) from both edges: everything cut is whitespace and the result has none at either edge |
| Text.TrimFixesTrimmed | src/pages/Vehicles.jsx:93 | `trim` leaves a string unchanged iff it has no edge whitespace |
| Staff.Search | src/pages/Staff.jsx:53-55 | Keeps exactly the records whose searched field is present and contains the query, case-insensitively, each as often as before |
| Staff.SearchMeaning | src/pages/Staff.jsx:53-55 | A record survives iff it is in the list, has the field, and the lower-cased query occurs in its lower-cased value |
| Staff.SearchKeepsOrder | src/pages/Staff.jsx:53-55 | Search keeps the survivors in their original order |
| Staff.EmptyQuery | src/pages/Staff.jsx:54 | The empty query keeps exactly the records that have the field: the whole list when all have it, while records lacking it are dropped |
| Staff.BadgeTables | src/pages/Staff.jsx:232-243 | Role colours: admin→danger, manager→warning, staff→primary, anything else (missing included)→secondary. Status colour is success iff "active", otherwise danger |
| Staff.ToExportRow | src/pages/Staff.jsx:251-260 | The ID is copied as it is. Every column after ID holds the field when present and non-empty, else "-", so no column after ID is blank |
| Staff.ExportRows | src/pages/Staff.jsx:250-261 | One export row per staff record, in list order |
| Staff.ExportHasNoBlankCells | src/pages/Staff.jsx:253-259 | Every exported cell after the ID column is either the record's own value or "-", and never blank |
| Staff.StaffPage.constructor | src/pages/Staff.jsx:21-49 | Initial state: empty lists, page 1, search by name, empty query, loading |
| Staff.StaffPage.FetchStaff | src/pages/Staff.jsx:121-134 | A successful load overwrites both the full and the filtered list (a missing field gives []); a failure sets the error; loading ends |
| Staff.StaffPage.HandleSearch | src/pages/Staff.jsx:51-58 | Stores the query, filters the full list on the selected field, and resets to page 1; nothing else changes |
| Staff.StaffPage.SelectFilterField | src/pages/Staff.jsx:317 | Changing the field only records it; the filtered list is not recomputed |
| Staff.StaffPage.HandleDelete | src/pages/Staff.jsx:217-230 | Without confirmation or on a failed request nothing changes; otherwise the lists are fetched again |
| Staff.StaffPage.SelectPage | src/pages/Staff.jsx:92 | A page button sets the current page |
| Staff.StaffPage.Prev | src/pages/Staff.jsx:105 | Guarded Prev |
| Staff.StaffPage.Next | src/pages/Staff.jsx:112 | Guarded Next against totalPages |
| Staff.StaffPage.RenderPagination | src/pages/Staff.jsx:60-118 | No controls iff totalPages < 1. Otherwise Prev is disabled on page 1 and Next on the last page. The buttons are strictly increasing, at most five, exactly the page set, with ellipses on the gaps |
| Staff.ReloadDiscardsSearch | src/pages/Staff.jsx:126-127 | A reload replaces the filtered list with everything fetched, while the query stays in the box |
| Notifications.NotificationsPage.RowNumber | src/pages/Notifications.jsx:126 | The S.NO cell `indexOfFirst + index + 1` is in [1, n], and the row it labels is list element `n - 1` |
| Notifications.NotificationsPage.constructor | src/pages/Notifications.jsx:6-9 | Initial state: empty list, page 1, not loading |
| Notifications.NotificationsPage.FetchNotifications | src/pages/Notifications.jsx:12-21 | A successful load replaces the list (a missing field gives []); a failure keeps it; the page is kept |
| Notifications.NotificationsPage.HandleDelete | src/pages/Notifications.jsx:28-37 | Confirmed and accepted: every notification with that `_id` is dropped and the rest stay in order. Otherwise the list is unchanged. The page never moves |
| Notifications.NotificationsPage.HandleDeleteClamped | src/pages/Notifications.jsx:32 | The delete followed by `PageAfterDelete`: the page is pulled back in range |
| Notifications.NotificationsPage.SelectPage | src/pages/Notifications.jsx:73 | A page button sets the current page |
| Notifications.NotificationsPage.Prev | src/pages/Notifications.jsx:86 | `Math.max(prev - 1, 1)` |
| Notifications.NotificationsPage.Next | src/pages/Notifications.jsx:93 | `Math.min(prev + 1, totalPages)`, available while the bar is shown |
| Notifications.NotificationsPage.RenderPagination | src/pages/Notifications.jsx:45-99 | No controls iff totalPages <= 1. Otherwise: the Prev/Next disabled flags, strictly increasing buttons (at most five) that are exactly the page set, with ellipses on the gaps |
| Notifications.PageAfterDelete | src/pages/Notifications.jsx:43-46 | The page after a delete is at least 1, in range whenever rows remain, and unchanged when still in range |
| Notifications.StaleDeleteEmptiesPage | src/pages/Notifications.jsx:32 | With 10k+1 uniquely-keyed notifications on page k+1, deleting the last leaves 10k rows and k pages, and page k+1 shows nothing. For k = 1 the bar is hidden too |
| Notifications.ClampAfterDelete | src/pages/Notifications.jsx:32-43 | With the clamped page, the table shows rows whenever any remain, and a page that still has rows is kept |
| Users.ShortId | src/pages/Users.jsx:176 | The ID cell is "-" for a missing or empty id. Otherwise it is the id's last `min(6, length)` characters, as a suffix of the id |
| Users.PageRange | src/pages/Users.jsx:97 | The loop visits pages 1..totalPages in order |
| Users.FullBarLayout | src/pages/Users.jsx:97-107 | The full bar is one button per page, in order, with exactly the current one active and no ellipsis |
| Users.UsersPage.RowIndex | src/pages/Users.jsx:193-200 | The index passed by row `i`'s Edit/Delete is a valid index of `users` and addresses that very row |
| Users.UsersPage.constructor | src/pages/Users.jsx:7-13 | Initial state: empty list, loading, modal closed, blank form, no index, page 1 |
| Users.UsersPage.FetchUsers | src/pages/Users.jsx:18-30 | A good response replaces the list (a missing field gives []); a bad one sets the error; loading ends |
| Users.UsersPage.HandleShow | src/pages/Users.jsx:35-39 | Opens the modal on the given user and index |
| Users.UsersPage.SetFormField | src/pages/Users.jsx:225-246 | An input rewrites one field of the form |
| Users.UsersPage.Hide | src/pages/Users.jsx:252 | Cancel hides the modal |
| Users.UsersPage.HandleSave | src/pages/Users.jsx:41-68 | No index: the list is unchanged and the modal closes. Accepted update in range: that row becomes `{...row, ...form}`, others and the length stay, and the modal closes. Failure: nothing changes, the modal stays open |
| Users.UsersPage.HandleDelete | src/pages/Users.jsx:70-88 | Confirmed and accepted: the row at `index` is removed, the rest in order. Otherwise (including an index past the list) nothing changes |
| Users.UsersPage.SelectPage | src/pages/Users.jsx:102 | A page button sets the current page |
| Users.UsersPage.Prev | src/pages/Users.jsx:113 | Guarded Prev |
| Users.UsersPage.Next | src/pages/Users.jsx:120 | Guarded Next |
| Users.UsersPage.RenderPagination | src/pages/Users.jsx:95-126 | Prev is disabled on page 1 and Next on page totalPages. One button per page 1..totalPages in order, exactly the current one active; this equals the bar layout of the gapless run |
| Users.NextOnEmptyList | src/pages/Users.jsx:119-120 | On an empty list Next is drawn enabled, yet its guard leaves the page at 1 |
| Vehicles.FormatImages | src/pages/Vehicles.jsx:70 | `(carImage \|\| []).join(', ')`: "" for no images; a single URL as itself |
| Vehicles.TrimAll | src/pages/Vehicles.jsx:93 | `map((url) => url.trim())`, piece by piece |
| Vehicles.ParseImages | src/pages/Vehicles.jsx:92-94 | Empty text gives []. Otherwise the comma-split pieces, trimmed, each comma-free and without edge whitespace |
| Vehicles.SplitJoined | src/pages/Vehicles.jsx:70-94 | Splitting the ", "-joined comma-free URLs at ',' gives one piece per URL, and each piece trims to what its URL trims to |
| Vehicles.ImagesRoundTrip | src/pages/Vehicles.jsx:70-94 | Edit-then-submit returns the same image list iff no URL holds a comma or edge whitespace and the list is not `[""]` |
| Vehicles.FromForm | src/pages/Vehicles.jsx:90-95 | The submitted data: the form's text fields plus the parsed image list |
| Vehicles.EditForm | src/pages/Vehicles.jsx:60-71 | The edit form copies the vehicle's text fields and joins its images with ", " |
| Vehicles.Overlay | src/pages/Vehicles.jsx:100 | `{ ...v, ...data }`: data's fields win; the images are replaced when data has them and kept otherwise |
| Vehicles.ApplyEdit | src/pages/Vehicles.jsx:97-102 | Vehicles with the edited id are overlaid, the others kept; the length is unchanged |
| Vehicles.ApplyEditIdempotent | src/pages/Vehicles.jsx:97-102 | Without `_id` in the data, an edit keeps every id, and repeating it changes nothing |
| Vehicles.NewVehicle | src/pages/Vehicles.jsx:104-108 | The appended vehicle is the data plus the fresh `_id` and `createdAt`, and nothing else |
| Vehicles.RemoveVehicle | src/pages/Vehicles.jsx:118 | Keeps exactly the vehicles with another id, each as often as before |
| Vehicles.RemoveVehicleKeepsOrder | src/pages/Vehicles.jsx:118 | Deleting keeps the rest in their original order |
| Vehicles.DeleteUndoesAdd | src/pages/Vehicles.jsx:103-119 | Deleting a just-added vehicle by its fresh id restores the fleet from before the add |
| Vehicles.VehiclesPage.constructor | src/pages/Vehicles.jsx:7-23 | Initial state: empty fleet, loading, modal closed, blank form |
| Vehicles.VehiclesPage.FetchVehicles | src/pages/Vehicles.jsx:26-37 | A good response replaces the fleet (a missing field gives []); a bad one sets the error; loading ends |
| Vehicles.VehiclesPage.OpenAddModal | src/pages/Vehicles.jsx:41-56 | No vehicle under edit, a blank form, the modal shown |
| Vehicles.VehiclesPage.OpenEditModal | src/pages/Vehicles.jsx:58-73 | Remembers the vehicle and loads its edit form |
| Vehicles.VehiclesPage.CloseModal | src/pages/Vehicles.jsx:75-77 | Hides the modal |
| Vehicles.VehiclesPage.HandleChange | src/pages/Vehicles.jsx:79-85 | One input rewrites its form field |
| Vehicles.VehiclesPage.HandleSubmit | src/pages/Vehicles.jsx:87-113 | An edit applies `ApplyEdit` by the edited vehicle's id. An add appends exactly one new vehicle at the end. The modal closes |
| Vehicles.VehiclesPage.HandleDelete | src/pages/Vehicles.jsx:116-120 | Confirmed: every vehicle with that id is removed. Declined: the fleet is unchanged |
| Vehicles.FormDataHasNoId | src/pages/Vehicles.jsx:11-22 | The form never holds `_id`, so a submit never rewrites an id |
| Bookings.ChoicesAreClosed | src/pages/Bookings.jsx:171-191 | Status is one of pending/confirmed/completed/cancelled and payment is Paid/Pending, each value naming one option |
| Bookings.WithStatus | src/pages/Bookings.jsx:164-169 | The status selector sets `status` and keeps every other field |
| Bookings.WithPayment | src/pages/Bookings.jsx:183-189 | The payment selector sets `paymentStatus` and keeps every other field |
| Bookings.SelectorsIndependent | src/pages/Bookings.jsx:164-189 | The two selectors commute, and choosing again replaces the earlier choice |
| Bookings.BookingsPage.constructor | src/pages/Bookings.jsx:6-11 | Initial state: no bookings, none selected, modal closed, page 1 |
| Bookings.BookingsPage.FetchBookings | src/pages/Bookings.jsx:18-29 | The list is replaced only by a response carrying `bookings`; otherwise it is kept |
| Bookings.BookingsPage.HandleEdit | src/pages/Bookings.jsx:31-34 | Selects the booking and opens the modal |
| Bookings.BookingsPage.SelectStatus | src/pages/Bookings.jsx:164-169 | Rewrites the selected copy's status |
| Bookings.BookingsPage.SelectPayment | src/pages/Bookings.jsx:183-189 | Rewrites the selected copy's payment status |
| Bookings.BookingsPage.HandleSaveChanges | src/pages/Bookings.jsx:36-44 | An accepted save re-fetches and closes the modal; a rejected one changes nothing |
| Bookings.BookingsPage.HandleDelete | src/pages/Bookings.jsx:46-55 | A confirmed and accepted delete re-fetches; otherwise nothing changes |
| Bookings.BookingsPage.HandlePrevPage | src/pages/Bookings.jsx:64-66 | Guarded Prev |
| Bookings.BookingsPage.HandleNextPage | src/pages/Bookings.jsx:68-70 | Guarded Next |
| Bookings.BookingsPage.ButtonStates | src/pages/Bookings.jsx:134-145 | Prev is disabled on page 1; Next is disabled on the last page or with no pages; in range, each is disabled iff its handler would not move |
| Dashboard.CountPayment | src/components/sample.jsx:60-69 | Counts the bookings whose lower-cased payment status equals the given one; never more than the list |
| Dashboard.TallyCountsAll | src/components/sample.jsx:60-69 | paid + pending <= n, with equality iff every booking's payment status reads paid or pending in some letter case |
| Dashboard.SelectorPaymentCounts | src/components/sample.jsx:65-68 | A status written by the booking editor's selector is tallied: "Paid" as paid, "Pending" as pending |
| Dashboard.Tally | src/components/sample.jsx:60-69 | The `forEach` loop's counters equal `CountPayment` for "paid" and "pending" |
| Dashboard.Recent | src/components/sample.jsx:72 | `slice(0, 10)`: the first min(10, n) bookings, in order |
| Dashboard.RecentFitsTwoPages | src/components/sample.jsx:86-89 | Ten recent bookings five to a page never make more than two pages, and at least one when any exist |
| Dashboard.CountOrZero | src/components/sample.jsx:57-58 | `list?.length \|\| 0` |
| Dashboard.DashboardPage.constructor | src/components/sample.jsx:29-38 | Initial state: zero counts, no bookings, loading, page 1 |
| Dashboard.DashboardPage.FetchDashboardData | src/components/sample.jsx:41-78 | With an array of bookings: counts, tallies and recent bookings are set, and the displayed total is at most the list. Otherwise they stay; loading ends either way |
| Dashboard.DashboardPage.HandlePrevPage | src/components/sample.jsx:91-93 | Guarded Prev |
| Dashboard.DashboardPage.HandleNextPage | src/components/sample.jsx:95-97 | Guarded Next |
| Dashboard.DashboardPage.ButtonStates | src/components/sample.jsx:270-279 | Prev is disabled on page 1; Next is disabled on the last page and whenever there are no pages |
| Settings.SetField | src/pages/Settings.jsx:53-55 | `handleChange` rewrites exactly the named input |
| Settings.Validate | src/pages/Settings.jsx:62-75 | A mismatch is reported only for differing passwords; too-short only for a non-empty password under six characters |
| Settings.ValidateMeaning | src/pages/Settings.jsx:62-75 | Mismatch iff the fields differ. Too-short iff they agree and are 1-5 characters. Accepted iff they agree and are empty or at least six |
| Settings.Payload | src/pages/Settings.jsx:77-88 | The payload carries exactly name, email, mobile, password and confirmPassword from the form |
| Settings.SessionAfterUpdate | src/pages/Settings.jsx:105-110 | The stored admin with name/email/mobile replaced and every other field (id, token) kept |
| Settings.SessionUpdateIdempotent | src/pages/Settings.jsx:105-110 | Refreshing the session twice with one form equals doing it once |
| Settings.ProfileForm | src/pages/Settings.jsx:38-44 | Missing or empty name/email/mobile become ""; both password fields are blank; the form passes the checks |
| Settings.SessionUserId | src/pages/Settings.jsx:8-10 | The admin id is taken iff the session holds a non-empty `id` |
| Settings.SettingsPage.constructor | src/pages/Settings.jsx:8-23 | Initial state: the stored session, a blank form, loading |
| Settings.SettingsPage.Mount | src/pages/Settings.jsx:26-51 | The profile is fetched iff the session has an id. A fetched admin fills the form; otherwise the form is kept; loading ends |
| Settings.SettingsPage.HandleChange | src/pages/Settings.jsx:53-55 | One input rewritten |
| Settings.SettingsPage.HandleUpdate | src/pages/Settings.jsx:57-124 | A failing form sends nothing; otherwise the payload is sent. On status 200 the session is merged and both password fields cleared; otherwise form and session are kept |
| Settings.UpdateKeepsAdmin | src/pages/Settings.jsx:105-113 | After a successful update the cleared form passes the checks and the stored admin keeps its id |

## Left out

- Network calls, toasts, `alert`, `console.error` and `sessionStorage` are not modelled. Each remote call is a `Response` or success flag given as input, and the session is a parameter. `window.confirm` is a boolean input.
- The asynchronous timing of the handlers is not modelled. Each handler runs as one atomic step. Interleavings of overlapping requests, React's batched and stale state updates, and the loading flags' intermediate values are left out. So is the fact that Bookings' `fetchBookings()` is not awaited before the modal closes.
- Rendering, JSX, modals, chart.js datasets, date formatting and the XLSX workbook (sheet, column widths, header style, file write) are not modelled. Only the export's row mapping is.
- Error messages are a flag (`error: bool`) rather than the message text.
- Text.Lower: only ASCII letters are lowered. JavaScript's `toLowerCase` also maps non-ASCII letters, some of them to longer strings.
- Settings.Validate: a password's length is counted in characters, not in UTF-16 code units as JavaScript's `length` counts them.
- Records: every field value is a string and an absent key stands for `undefined`. Non-string values (numbers, nested objects, arrays other than a vehicle's `carImage`) are not modelled, nor is `null`.
- Users.ShortId: states one direction only. An id of "-" shows the same cell as a missing id, so the cell does not determine whether an id exists.
- Staff's add/edit/view modals (`openEditModal`, `openViewModal`, `openAddModal`, `closeModal`, `handleChange`, `handleSubmit`) are not modelled. Their only effect on the lists is a re-fetch, which `FetchStaff` models.
- Staff.ToExportRow: the ID cell has no "-" placeholder, so a record without `_id` exports a blank ID cell, as `ID: staff._id` does at src/pages/Staff.jsx:251.
- Staff's row number (S.NO) and the Users row numbers are covered by `Paging.RowAddress`, not by a member of their own.
- Bookings and Settings requests are sent to URLs and with headers the model does not represent; the request is the success input only.
- Notifications.NotificationsPage.Next: requires more than one page, because the button exists only while the bar is shown.
- Dashboard.RecentFitsTwoPages: follows from the contracts of `Recent` and `TotalPages` with no further proof.
- There is no sorting of lists in the pages (only the numeric sort of page numbers), so none is modelled.

## Findings

| source | as written | input that shows it | evidently intended | confidence | as-written member | corrected member |
|---|---|---|---|---|---|---|
| src/pages/Notifications.jsx:32 | A successful delete filters the list but leaves `currentPage` as it was, even when that page no longer exists; with one page left the bar (line 46) is hidden as well | 11 notifications with distinct ids, on page 2, delete the 11th: 10 remain, page 2 is empty, and the bar is hidden so no control returns to page 1 | After a delete the page is pulled back to the last existing page | not executed | Notifications.StaleDeleteEmptiesPage | Notifications.ClampAfterDelete |
