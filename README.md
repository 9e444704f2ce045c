# Lost & found portal: moderation workflow, search filter and session gate

A school lost & found web portal in which finders report found items, students
search the approved items and claim one, and an administrator approves or
rejects reports from a dashboard behind a fixed-credential login. The report,
claim and admin pages read or write a remote entity store of `FoundItem` and
`ClaimRequest` records. This project models the logic in four pages, over an in-memory store
that stands in for the remote one:

- **Claim page** (`claim.dfy`, module `Claim`). The search filter over the
  fetched approved items is a case-insensitive substring test on the name, the
  description when there is one, or the location, AND a category test with an
  "All Categories" pass-through. The claim dialog has four fields. A submit
  stores a pending claim that copies the selected item's id and name.
- **Report page** (`report.dfy`, module `Report`). An eight-field form edited
  one field at a time, plus a photo slot filled by an upload. A submit stores
  the form as a new item whose status is always `pending`. "Report Another
  Item" clears the form.
- **Admin dashboard** (`admin.dfy`, module `Admin`). The four stats-panel
  counts, and the approve, reject and delete actions of the items table.
  Approve and reject exist only for pending items. Delete exists for every
  item.
- **Session gate** (`session.dfy`, module `Session`). The one browser-storage
  entry `adminLoggedIn`, the login form that sets it on an exact match with
  `admin` / `admin123`, the dashboard's redirect unless the entry is exactly
  `"true"`, and logout.

Supporting modules:

- `text.dfy` (`Text`): ASCII lower-casing and `includes`. `includes` is
  proved equal to an existential definition of "is a substring".
- `entities.dfy` (`Entities`): the records and the status vocabulary
  `pending | approved | rejected | claimed`.
- `store.dfy` (`Store`): class `EntityStore`, the in-memory stand-in. It holds
  maps from id to record, and it implements create, status update and delete
  as the call payloads describe them. `Lists(rows, m)` says that a fetched
  list holds each record of map `m` exactly once, in an order left open.
- `scenarios.dfy` (`Scenarios`): one walk-through. A finder reports a
  backpack. The admin approves it and rejects another item. The backpack
  appears on the claim page and is claimed.

Points of the code that the model follows closely:

- The report form has no status field. The create payload adds
  `status: 'pending'` (Report.jsx:56-59), so every new item is pending.
- The claim dialog always sends `claimant_phone`, as `''` when it is left
  blank (Claim.jsx:74-79).
- Approve and reject are guarded only by rendering their two buttons for a
  pending item (Admin.jsx:183). `Admin.Approve` and `Admin.Reject` model that
  guard. The store's own status update (`EntityStore.UpdateItemStatus`) is
  not guarded.
- Deleting an item does not cascade. Claims that refer to the deleted item
  are kept as they are (Admin.jsx:54-57; `EntityStore.DeleteItem`,
  `Admin.Delete`).
- The login check runs after a delay on the username and password captured
  when the form was submitted (AdminLogin.jsx:36-44). `BeginSubmit` returns
  that pair and `CompleteSubmit` tests it, so edits made during the delay do
  not change the outcome.

## Model

| member | source | states |
|---|---|---|
| Text.Lower | Claim.jsx:55-57 | lower-casing keeps the length, maps each character by ASCII lower-casing, and leaves no upper-case ASCII letter |
| Text.LowerIdempotent | Claim.jsx:55-57 | lower-casing an already lower-cased string changes nothing |
| Text.IncludesIsSubstring | Claim.jsx:55-57 | `includes` holds exactly when the needle occurs at some position of the haystack (both directions) |
| Text.Includes | Claim.jsx:55-57 | `includes` can hold only when the needle is no longer than the haystack, and the empty needle is included in every string |
| Store.SetStatus | Admin.jsx:49-50 | `update(id, {status})` keeps the key set, gives that item the new status with every other field unchanged, and leaves every other item as it was; an unknown id changes nothing |
| Store.SetStatusCounts | Admin.jsx:64-66 | a status change moves one item from the count of its old status to the count of its new status; every other status count is unchanged |
| Store.DeleteCounts | Admin.jsx:54-57 | deleting a record lowers the count of its own status by one and no other count; an unknown id changes no count |
| Store.NewRecordCounts | Claim.jsx:46-47 | storing a new record under an unused id raises the count of its status by exactly one and leaves every other status count unchanged |
| Store.EntityStore.CreateItem | Report.jsx:56-59 | create stores the given record unchanged under an id not in use; claims are untouched |
| Store.EntityStore.CreateClaim | Claim.jsx:46-47 | create stores the given claim unchanged under an id not in use; items are untouched |
| Store.EntityStore.UpdateItemStatus | Admin.jsx:49-52 | fails exactly on an unknown id; otherwise only that item's status changes |
| Store.EntityStore.DeleteItem | Admin.jsx:54-57 | fails exactly on an unknown id; the item is gone afterwards; claims, including ones that refer to it, are kept |
| Admin.CountWithStatus | Admin.jsx:64-66 | a status count over items or claims is at most the list length; it is zero exactly when no record has the status and equals the length exactly when every record has it |
| Admin.DashboardStats | Admin.jsx:109-114 | Pending Items + Approved Items + Items Claimed never exceeds the number of items; Pending Claims never exceeds the number of claims |
| Admin.CountsPartition | Admin.jsx:64-66 | the pending, approved, rejected and claimed counts are disjoint and add up to the length of the list |
| Admin.CountMatchesStore | Admin.jsx:39-47 | for a fetched list holding every stored record once, in any order, each status count equals the number of stored records with that status; for items this gives the three item cards, for claims Pending Claims |
| Admin.ModerationOffered | Admin.jsx:183 | approve and reject are offered for an id exactly when it is among the store's pending items |
| Admin.Approve | Admin.jsx:183-192 | the update is issued exactly when the item exists and is pending; then only its status changes, to approved; otherwise nothing changes |
| Admin.Reject | Admin.jsx:193-200 | the update is issued exactly when the item exists and is pending; then only its status changes, to rejected; otherwise nothing changes |
| Admin.Delete | Admin.jsx:203-210 | offered in any status; afterwards the item is absent, every other item is unchanged, and claims are untouched |
| Admin.ModerationCounts | Admin.jsx:110-113 | approving a pending item lowers Pending Items by one and raises Approved Items by one; rejecting lowers Pending Items only; Items Claimed is unchanged by either |
| Admin.ModerationIsOneShot | Admin.jsx:183 | once an item has any status other than pending, approve and reject are no longer offered for it |
| Session.IsLoggedIn | AdminLogin.jsx:25 | is the `=== 'true'` test on the optional storage entry, which `Mount`, `DashboardGuard` and `HandleSubmit` state their routes in |
| Session.CredentialsMatch | AdminLogin.jsx:37 | is the credential test, equality with the fixed pair, which `CompleteSubmit` and `HandleSubmit` state their outcome in |
| Session.AdminLoginForm.constructor | AdminLogin.jsx:16-19 | the login form starts with empty username, password and error, and is not loading |
| Session.AdminLoginForm.Mount | AdminLogin.jsx:22-28 | the login page redirects to the dashboard exactly when the entry holds "true" |
| Session.AdminLoginForm.SetUsername | AdminLogin.jsx:93 | typing changes the username only |
| Session.AdminLoginForm.SetPassword | AdminLogin.jsx:108 | typing changes the password only |
| Session.AdminLoginForm.BeginSubmit | AdminLogin.jsx:30-33 | each submit first clears the error and sets loading, and hands on the username and password as they are at that moment |
| Session.AdminLoginForm.CompleteSubmit | AdminLogin.jsx:36-44 | judged on the pair captured at submit time: on a match the entry becomes "true" and the route is the dashboard; otherwise the entry is unchanged, the error is "Invalid username or password", loading stops, and there is no navigation |
| Session.AdminLoginForm.HandleSubmit | AdminLogin.jsx:30-45 | the whole submit goes to the dashboard exactly when the credentials match; a failed submit leaves the entry as it was and shows the error |
| Session.DashboardGuard | Admin.jsx:24-30 | the dashboard redirects to the login page exactly when the entry is not "true" |
| Session.Logout | Admin.jsx:32-35 | logout removes the entry, so the visitor is no longer logged in, and goes to the login page |
| Session.LoginLogoutRoundTrip | Admin.jsx:25-35 | after a matching login the dashboard guard lets the visitor in; after logout it always sends the visitor to the login page |
| Report.CategoriesFixed | Report.jsx:12-21 | the category choices are eight distinct, non-empty names |
| Report.Set | Report.jsx:38-40 | setting a field gives it the new value and keeps every other field |
| Report.SetSameValue | Report.jsx:38-40 | re-entering a field's current value leaves the form as it was |
| Report.SetTwice | Report.jsx:38-40 | editing a field twice leaves only the last value |
| Report.SetCommutes | Report.jsx:38-40 | edits to two different fields give the same form in either order |
| Report.EmptyFormIsEmpty | Report.jsx:83-92 | the reset form is "" in every field |
| Report.Submission | Report.jsx:56-59 | the created record is pending, carries a description, and gives back exactly the submitted form's fields |
| Report.SubmissionInjective | Report.jsx:56-59 | two submissions produce the same record exactly when their forms are equal |
| Report.ReportPage.constructor | Report.jsx:24-36 | the page starts with the empty form and is not submitting, uploading or submitted |
| Report.ReportPage.HandleInputChange | Report.jsx:38-40 | exactly the named field takes the new value; the other fields and the flags are unchanged |
| Report.ReportPage.HandlePhotoUpload | Report.jsx:42-50 | with no file chosen nothing changes; otherwise only the photo field takes the returned URL and uploading has ended |
| Report.ReportPage.RemovePhoto | Report.jsx:128-131 | removing the photo sets the photo field to "" and keeps every other field |
| Report.ReportPage.HandleSubmit | Report.jsx:52-63 | the store gains exactly one new item, the pending record of the current form; afterwards the page is submitted and not submitting |
| Report.ReportPage.ReportAnother | Report.jsx:80-93 | leaves the confirmation and resets all eight fields to "" |
| Claim.ClaimCategoriesMatchReport | Claim.jsx:15-25 | the filter offers "All Categories" followed by exactly the report page's eight categories, and "All Categories" is not one of them |
| Claim.FilterItems | Claim.jsx:54-60 | a row is in the result exactly when it was fetched and passes both the search and the category test; the result is no longer than the input |
| Claim.FilterIsSubsequence | Claim.jsx:54-60 | the result is a subsequence of the fetched rows: same relative order, nothing added |
| Claim.MatchesSearchMeaning | Claim.jsx:55-57 | the search test holds exactly when the lower-cased term is a substring of the lower-cased name, of the description when present, or of the location |
| Claim.NoDescriptionMatch | Claim.jsx:56 | an item with no description matches exactly when the term occurs in its name or location |
| Claim.OwnNameMatches | Claim.jsx:55 | a term equal to an item's name up to letter case always finds that item |
| Claim.MatchesSearch | Claim.jsx:55-57 | the empty term matches every item; a match needs the term to be no longer than the name, the description when present, or the location |
| Claim.MatchesCategory | Claim.jsx:58 | is the category test: the "All Categories" pass-through or exact equality with the item's category |
| Claim.Keeps | Claim.jsx:59 | the starting filter keeps every item; a kept item always belongs to the selected category unless that is "All Categories" |
| Claim.ClaimSubmitCounts | Claim.jsx:46-51 | a claim submit raises the store's pending-claims count by exactly one and leaves every other claim-status count unchanged |
| Claim.UnfilteredKeepsAll | Claim.jsx:54-60 | with the initial empty term and "All Categories" the result is the whole fetched list |
| Claim.ApprovedItems | Claim.jsx:41-44 | is the page's fetch, the sub-map of stored items whose status is approved, which `OnlyApprovedShown` and `ClaimRefersToApprovedItem` reason about |
| Claim.OnlyApprovedShown | Claim.jsx:41-60 | whatever the search and category, every shown row is a stored item under its id and is approved |
| Claim.SetClaimField | Claim.jsx:181-218 | editing a claim field gives it the new value and keeps the other three |
| Claim.NewClaim | Claim.jsx:64-69 | the created claim copies the selected item's id and name, keeps the four form fields unchanged, and is pending |
| Claim.ClaimRefersToApprovedItem | Claim.jsx:62-69 | a claim made from a shown row names a stored approved item and carries that item's name |
| Claim.ClaimPage.constructor | Claim.jsx:28-37 | the page starts with an empty term, "All Categories", no selection, an empty claim form, and not submitted |
| Claim.ClaimPage.SetSearchTerm | Claim.jsx:103-105 | typing changes the search term only |
| Claim.ClaimPage.SetCategory | Claim.jsx:111-113 | picking a category changes the selected category only |
| Claim.ClaimPage.OpenClaimModal | Claim.jsx:72-81 | opening the dialog selects the item, resets all four claim fields to "", and clears submitted |
| Claim.ClaimPage.SetClaimFormField | Claim.jsx:183 | a dialog input changes that claim field only |
| Claim.ClaimPage.CloseModal | Claim.jsx:157 | closing the dialog clears the selection only |
| Claim.ClaimPage.Shown | Claim.jsx:54-60 | the listed rows are exactly the fetched rows that pass the current search and category, in their fetched order; with the starting filter every fetched row is listed |
| Claim.ClaimPage.ConfirmationShown | Claim.jsx:157-165 | the "Claim Submitted!" view is on screen exactly when an item is selected and submitted is set |
| Claim.ClaimPage.HandleClaimSubmit | Claim.jsx:46-70 | the store gains exactly one new claim, built from the selected item and the form; afterwards submitted is true and the selection is cleared, so the dialog is closed and its confirmation view is not shown |
| Claim.ClaimPage.HandleClaimSubmitShowingConfirmation | Claim.jsx:157-176 | the same stored claim; afterwards submitted is true and the selection is kept, so the dialog shows its "Claim Submitted!" view until Close |
| Scenarios.ReportAndModerate | Admin.jsx:183-200 | a reported backpack that is approved ends up approved with its reported fields; a second report that is rejected ends up rejected |
| Scenarios.ClaimApproved | Claim.jsx:41-81 | with one approved and one rejected item, the claim page shows only the approved one; claiming it with the corrected submit from "## Findings" stores the claim for that item and shows the confirmation (with the submit as written, `HandleClaimSubmit`, the confirmation is never shown) |
| Scenarios.BlueBackpack | Claim.jsx:62-69 | the claim on the approved backpack is pending and carries the name "Blue Backpack" and the claimant's fields; the rejected item never reaches the claim page |

## Left out

- Text.Lower: models `toLowerCase` on ASCII letters only. Full Unicode case mapping is not modelled.
- The remote store's transport, failures and latency. Create, update and delete always reach the in-memory store. A rejected call, which the pages do not catch, is not modelled. Neither is the loading state it would leave stuck.
- Server-side ordering of fetched lists (`-created_date`). `Lists` leaves the order of a fetched list open.
- Query caching and invalidation. The dashboard is modelled as seeing the store's current state after every mutation.
- Admin.Approve, Admin.Reject: the guard reads the item's current status in the store, not the row as last rendered. A stale row and a double click racing a refetch are not modelled.
- Async intermediate states. `isUploading` during an upload and `isSubmitting` during a create show only their values before and after the call.
- The 500 ms delay in the login submit. The submit is split into `BeginSubmit` and `CompleteSubmit`, which receives the pair captured by `BeginSubmit`; `HandleSubmit` runs them back to back.
- Navigation and rendering. `navigate` appears only as the `Route` a method returns.
- Ids are natural numbers assigned by the in-memory store. The real store assigns strings.
- Browser-side `required` and `type="email"` validation of form inputs.
- Uploading the file itself. `HandlePhotoUpload` takes the URL the upload returned as a parameter.
- Date parsing and formatting on the dashboard.
- The claims tab of the dashboard and any claim status change, including the `claimed` transition, are not modelled.
- Home.jsx and ItemCard.jsx, which are presentation only.

## Findings

| source | as written | input that shows it | evidently intended | confidence | as-written member | corrected member |
|---|---|---|---|---|---|---|
| Claim.jsx:48-51, 157-176 | the claim mutation's success handler sets `submitted` and also clears `selectedItem`; the dialog is open only while `selectedItem` is set, so the dialog closes in the same update and the "Claim Submitted!" view and its Close button never stay on screen | any successful claim submit, e.g. claiming the approved "Blue Backpack" | the success handler sets only `submitted`; the dialog stays open on the confirmation until Close clears the selection | high (not executed) | Claim.ClaimPage.HandleClaimSubmit | Claim.ClaimPage.HandleClaimSubmitShowingConfirmation |
