# CURA ward portal — a verified model of its core

CURA is a hospital ward portal: a React front end over a Supabase database that
keeps wards and their bed counts, patients, staff, saved clinical forms, ward
transfers and bills. This Dafny project models the parts of it that hold logic
and proves what they promise:

- **The application store** (`Store.AppStore`). It holds the wards, patients,
  staff and saved forms, and it has one bed-count primitive. Adding, editing,
  deleting and discharging a patient decide when that primitive fires.
  - The store keeps every ward's tallies consistent: no negative occupancy, and
    the free beds are the total less the occupied.
  - Every change leaves the other wards and the other collections alone.
  - A census of the active patients in each ward serves as an independent
    reference. With every call accepted, admitting, deleting, discharging and
    moving a patient keep a ward's count equal to its census.
  - Three edits break this agreement, each shown by a concrete lemma. Re-admitting
    a discharged patient by a status edit in the same ward takes no bed. A status
    edit to `Discharged` in the same ward releases no bed. A move to another ward
    with the status `Discharged` releases nothing from the old ward.
- **Key rewriting** (`KeyCase`). The snake_case / camelCase key rewrites between
  database rows and records, with their round trips.
- **Billing** (`Billing`). The bill editor's totals, the edits to its item list,
  the bill list filter, which actions each bill offers, and the payment form.
- **Ward transfers** (`WardTransfers`), **patients** (`PatientsPage`),
  **staff** (`StaffPage`) and **wards** (`WardsPage`). In each page:
  - the list filter;
  - the choices offered;
  - the add / edit modal and the call its submission makes;
  - derived values: the transfer request's from-fields, the ward's free beds,
    the occupancy band and the avatar initials.
- **The dashboard** (`Dashboard`). Its bed, patient and staff aggregates, the
  status chart and the five most recent admissions.
- **The form catalog** (`FormCatalog`). Its templates and lookups.
- **The form viewers.**
  - The per-page undo / redo history of the drawing viewer (`DrawableForms`),
    modelled with its index arithmetic exactly as the code has it.
  - The plain viewer (`PlainForms`).
  - The saved-form viewer (`SavedForms`).
  - Their shared page and zoom controls (`PageControls`).
- **The patient forms modal** (`FormsModal`). Its view-mode machine.

How the model represents the system:

- **Remote calls.** Every remote table call is a `Remote` parameter that
  accepts or rejects with a message. The reply each operation returns is a
  `Reply` (`Ok` or `Err`), as the source returns `{ success, error }` and never
  throws.
- **Local state and tables.** After an accepted write the local list holds what
  the table holds, so one list models both.
- **Identifiers.** Fresh ids from the database are parameters the caller
  promises are unused.
- **Timestamps.** They are integer parameters.
- **Money.** It is `real`.
- **Page keys.** A page key `page-<n>` is the page number itself.
- **Images.** A page image is an opaque non-empty string (a data URL).

## Model

| member | source | states |
|---|---|---|
| `KeyCase.CamelKey` | src/context/AppContext.jsx:19 | the key is never lengthened, no `_` before a lower-case letter is left, the first character is kept (or is the upper-case letter its `_` became), and a key without underscores is unchanged |
| `KeyCase.SnakeKey` | src/context/AppContext.jsx:30 | the key is never shortened, no upper-case letter is left, and a key without upper-case letters is unchanged |
| `KeyCase.CamelKeyIdempotent` | src/context/AppContext.jsx:19 | rewriting a key to camelCase twice gives what rewriting once gives |
| `KeyCase.CamelKeyOfNoMatch` | src/context/AppContext.jsx:19 | a key the pattern does not match is left as it is |
| `KeyCase.SnakeKeyIdempotent` | src/context/AppContext.jsx:30 | rewriting a key to snake_case twice gives what rewriting once gives |
| `KeyCase.SnakeOfCamelKey` | src/context/AppContext.jsx:19-30 | a key without upper-case letters survives camelCase then snake_case |
| `KeyCase.CamelOfSnakeKey` | src/context/AppContext.jsx:19-30 | a key without underscores survives snake_case then camelCase |
| `KeyCase.Assign` | src/context/AppContext.jsx:20 | the entry is present afterwards; an existing key keeps every key in its place, a new key is added at the end, and distinct keys stay distinct |
| `KeyCase.Renamed` | src/context/AppContext.jsx:18-21 | every entry is listed under its renamed key, in order |
| `KeyCase.RekeyDistinct` | src/context/AppContext.jsx:17-21 | the rewritten object never lists one key twice, even when two keys rename to the same key |
| `KeyCase.RekeyInjective` | src/context/AppContext.jsx:17-21 | when the renaming is one-to-one on the keys, every entry keeps its value and place under its new key |
| `KeyCase.CamelKeyInjective` | src/context/AppContext.jsx:19 | two different keys without upper-case letters never rename to the same camelCase key |
| `KeyCase.CamelKeysDistinct` | src/context/AppContext.jsx:17-21 | such a row's keys rename to pairwise different field names |
| `KeyCase.RenamedRoundTrip` | src/context/AppContext.jsx:15-34 | renaming a row's entries to camelCase and back gives the row again |
| `KeyCase.SnakeOfCamelEntries` | src/context/AppContext.jsx:15-34 | `toSnakeCase(toCamelCase(row))` is the row whenever no column name has an upper-case letter |
| `KeyCase.RewriteKeys` | src/context/AppContext.jsx:16-22 | a missing record is returned as is; otherwise the loop fills a fresh object key by key, and the result is the renamed entries |
| `KeyCase.ToCamelCase` | src/context/AppContext.jsx:15-23 | the camelCase rewrite of a record, a missing record returned as is |
| `KeyCase.ToSnakeCase` | src/context/AppContext.jsx:26-34 | the snake_case rewrite of a record, a missing record returned as is |
| `Store.FindPatient` | src/context/AppContext.jsx:237 | nothing is found exactly when no patient has the id; otherwise the result is a listed patient with that id |
| `Store.FindPatientAt` | src/context/AppContext.jsx:237 | with unique ids, the patient found by id is the one at that index, and no other index holds the id |
| `Store.Bump` | src/context/AppContext.jsx:179-182 | an increment adds one occupied bed; a decrement removes one from a positive count and leaves exactly 0 otherwise; the free beds are recomputed as total less occupied; nothing else changes |
| `Store.BumpKeepsConsistent` | src/context/AppContext.jsx:179-182 | a ward whose tallies agree keeps them through any bed change |
| `Store.BumpRoundTrip` | src/context/AppContext.jsx:179-182 | an increment then a decrement restore a consistent ward; so do a decrement then an increment when a bed was occupied |
| `Store.BedCountReply` | src/context/AppContext.jsx:167-203 | the bed-count call succeeds exactly when the ward exists and the table calls go through |
| `Store.AfterBedCountTouchesOnlyTarget` | src/context/AppContext.jsx:170-198 | only the ward with the id changes, and only in its bed tallies; a failed call or a missing ward changes nothing |
| `Store.AfterBedCountKeepsConsistent` | src/context/AppContext.jsx:179-198 | every ward consistent before a bed change is consistent after it |
| `Store.AdmitTakesOneBed` | src/context/AppContext.jsx:221-224 | admitting an active patient into a consistent ward takes exactly one free bed there and changes no other ward |
| `Store.SameWardEditKeepsBeds` | src/context/AppContext.jsx:256-266 | an edit that keeps the ward touches no bed count, whatever the status change |
| `Store.DischargedRecord` | src/context/AppContext.jsx:307-315 | the discharged record has status Discharged and the discharge time, and every other field as before |
| `Store.DischargeTwiceKeepsBeds` | src/context/AppContext.jsx:319-322 | discharging an already discharged patient releases no bed |
| `Store.CensusUpdate` | src/context/AppContext.jsx:269 | replacing one patient record moves a ward's census by that record's change alone |
| `Store.BedCountFollowsCensus` | src/context/AppContext.jsx:167-198 | one accepted bed change keeps every count equal to its census when it follows the one patient who entered or left that ward |
| `Store.AdmitKeepsCensus` | src/context/AppContext.jsx:221-226 | admitting a patient keeps every ward's count equal to its census |
| `Store.DeleteKeepsCensus` | src/context/AppContext.jsx:289-294 | deleting the patient at an index keeps every ward's count equal to its census |
| `Store.RemovePatientAt` | src/context/AppContext.jsx:280-294 | with unique ids, deletion finds the patient at the index and the filter drops exactly that index |
| `Store.DischargeKeepsCensus` | src/context/AppContext.jsx:305-324 | discharging the patient at an index keeps every ward's count equal to its census |
| `Store.EditKeepsCensus` | src/context/AppContext.jsx:250-269 | an edit that leaves the patient active or leaves it inactive, whether or not it moves wards, keeps every ward's count equal to its census |
| `Store.ReadmissionInSameWardTakesNoBed` | src/context/AppContext.jsx:257 | re-admitting a discharged patient by a status edit in the same ward takes no bed, so that ward falls one behind its census |
| `Store.DischargeInSameWardKeepsBed` | src/context/AppContext.jsx:257 | discharging a patient by a status edit in the same ward releases no bed, so that ward stays one ahead of its census |
| `Store.DischargedMoveKeepsBed` | src/context/AppContext.jsx:257-266 | moving a patient who holds a bed to another ward with the status `Discharged` makes no bed call, so the old ward stays one ahead of its census |
| `Store.AppStore.constructor` | src/context/AppContext.jsx:37-42 | the store starts with every list empty, and its invariant holds |
| `Store.AppStore.UpdateWardBedCount` | src/context/AppContext.jsx:167-204 | the reply and the new ward list are those of the bed-count specification; nothing else changes |
| `Store.AppStore.AddWard` | src/context/AppContext.jsx:113-129 | an accepted insert appends the new ward; a rejected one changes nothing and returns the error |
| `Store.AppStore.UpdateWard` | src/context/AppContext.jsx:131-148 | an accepted update replaces the ward with that id; a missing id is a not-found error; a rejection changes nothing |
| `Store.AppStore.DeleteWard` | src/context/AppContext.jsx:150-164 | an accepted delete drops every ward with that id, and a missing id is no error |
| `Store.AppStore.AddPatient` | src/context/AppContext.jsx:207-232 | the new patient goes first with its admission time; its ward gains a bed exactly when it is active and has a ward; the bed-count outcome does not change the reply |
| `Store.AppStore.UpdatePatient` | src/context/AppContext.jsx:234-275 | the record is replaced; when the ward changes and the new status is active, the prior ward releases a bed if one was held and the new ward takes one if set |
| `Store.AppStore.DeletePatient` | src/context/AppContext.jsx:277-300 | the patient is removed, a missing id included; the ward releases the bed the patient held |
| `Store.AppStore.DischargePatient` | src/context/AppContext.jsx:302-330 | the patient is marked discharged with the time; the ward releases a bed only if the patient had one and was not already discharged |
| `Store.AppStore.MoveBed` | src/context/AppContext.jsx:256-266 | on a change of ward to an active status, the prior ward releases the patient's bed and then the new ward takes one, as the edit's bed plan says; the store stays valid and every other list is unchanged |
| `Store.AppStore.ReleaseBed` | src/context/AppContext.jsx:289-294 | only a patient with a ward who is not discharged gives a bed back, as deleting or discharging does (also at src/context/AppContext.jsx:319-322); the store stays valid and every other list is unchanged |
| `Store.AppStore.AddStaff` | src/context/AppContext.jsx:333-349 | an accepted insert appends the member |
| `Store.AppStore.UpdateStaff` | src/context/AppContext.jsx:351-368 | an accepted update replaces the member with that id; a missing id is a not-found error |
| `Store.AppStore.DeleteStaff` | src/context/AppContext.jsx:370-384 | an accepted delete drops every member with that id |
| `Store.AppStore.AddPatientForm` | src/context/AppContext.jsx:397-413 | an accepted insert puts the saved form first in the patient-form list |
| `Store.AppStore.AddOtForm` | src/context/AppContext.jsx:426-442 | an accepted insert puts the saved form first in the operating-theatre form list |
| `Billing.TotalIsNetRate` | src/pages/Billing.jsx:263-268 | tax and discount are percentages of the subtotal, and the total is subtotal plus tax less discount, which is the subtotal scaled by the net rate |
| `Billing.BlankRatesKeepSubtotal` | src/pages/Billing.jsx:265-267 | with both percentages blank or zero there is no tax and no discount, and the total is the subtotal |
| `Billing.TotalNonNegative` | src/pages/Billing.jsx:263-268 | with no negative amounts, no negative tax and a discount of at most 100 per cent, the total is never negative |
| `Billing.SubtotalNonNegative` | src/pages/Billing.jsx:264 | a subtotal of non-negative amounts is non-negative |
| `Billing.TotalsExample` | src/pages/Billing.jsx:263-268 | two rooms at 100 and a test at 50, with 10 per cent tax and 5 per cent discount, total 262.5 |
| `Billing.EditItem` | src/pages/Billing.jsx:154-165 | the edited field takes the value; editing quantity or unit price sets the amount to quantity times price, a non-number counting as zero; other edits leave the amount |
| `Billing.NonNumericQuantityPricesZero` | src/pages/Billing.jsx:159-161 | a quantity that is not a number prices the item at zero |
| `Billing.SubtotalAfterEdit` | src/pages/Billing.jsx:154-165 | editing one item moves the subtotal by exactly the change in that item's amount |
| `Billing.TextEditKeepsSubtotal` | src/pages/Billing.jsx:154-165 | an edit of a text field never changes the subtotal |
| `Billing.AddItemKeepsSubtotal` | src/pages/Billing.jsx:139-148 | appending the default item leaves the subtotal as it was |
| `Billing.RemoveItemSubtotal` | src/pages/Billing.jsx:150-152 | removing an item takes exactly its amount off the subtotal |
| `Billing.PrefillBill` | src/pages/Billing.jsx:68-78 | an edited bill opens with its own fields; an empty column opens blank and an empty percentage as zero |
| `Billing.OpenedItems` | src/pages/Billing.jsx:80-91 | the editor opens with the stored items, or with the default item when there are none, never with an empty list |
| `Billing.FilteredBillsExact` | src/pages/Billing.jsx:236-242 | the filtered list keeps the order, and a bill is in it exactly when the term occurs in its patient's name or its number and the filter is All or its payment status |
| `Billing.BlankSearchShowsAll` | src/pages/Billing.jsx:236-242 | with no term and the All filter, every bill that has a known patient or a number is listed |
| `Billing.OfferedBillActions` | src/pages/Billing.jsx:371-396 | viewing and printing are always offered; adding a payment exactly when the balance is positive; editing, finalizing and deleting exactly for a draft |
| `Billing.FinalizedBillIsFrozen` | src/pages/Billing.jsx:382-396 | a bill that is not a draft offers only viewing, printing and payment |
| `Billing.PaymentFormFor` | src/pages/Billing.jsx:126-137 | the payment form proposes the balance as the amount, blank for a zero balance, and pays in cash with the other fields empty |
| `Billing.PaymentDefaultsToBalance` | src/pages/Billing.jsx:129 | whenever a payment can be added, the form proposes paying the whole positive balance (also at src/pages/Billing.jsx:377) |
| `Billing.BillEditor.constructor` | src/pages/Billing.jsx:20-58 | the editor starts closed with a blank draft and one default item |
| `Billing.BillEditor.OpenModal` | src/pages/Billing.jsx:65-115 | a stored bill opens prefilled with its fetched items (a failed fetch keeps the items); no bill opens a blank draft with one default item |
| `Billing.BillEditor.AddBillItem` | src/pages/Billing.jsx:139-148 | the default item is appended at the end and nothing else changes |
| `Billing.BillEditor.RemoveBillItem` | src/pages/Billing.jsx:150-152 | exactly the item at the index is dropped, in order |
| `Billing.BillEditor.UpdateBillItem` | src/pages/Billing.jsx:154-165 | only the item at the index changes, by the item edit |
| `Billing.BillEditor.OpenPaymentModal` | src/pages/Billing.jsx:126-137 | the payment form opens on the bill with its proposed payment |
| `Billing.BillEditor.Submit` | src/pages/Billing.jsx:167-187 | an edited bill is updated and a new one created with the form and items; the editor closes only when the store accepts |
| `Billing.BillEditor.SubmitPayment` | src/pages/Billing.jsx:189-212 | the payment names the selected bill and its patient; the form closes only when the store accepts |
| `WardTransfers.SetField` | src/pages/WardTransfers.jsx:84-87 | the named input takes the value and every other field stays |
| `WardTransfers.PatientChoicesExact` | src/pages/WardTransfers.jsx:401 | the patient choices are exactly the patients not discharged, in list order |
| `WardTransfers.DestinationChoicesExact` | src/pages/WardTransfers.jsx:441 | the destination choices are exactly the wards other than the source ward, in order (also at src/pages/Patients.jsx:625) |
| `WardTransfers.FilteredTransfersExact` | src/pages/WardTransfers.jsx:173-179 | a transfer is listed exactly when the term occurs in its patient's name or its reason and the filter is All or its status, in order |
| `WardTransfers.BlankSearchShowsAllTransfers` | src/pages/WardTransfers.jsx:173-179 | with no term and the All filter, every transfer is listed |
| `WardTransfers.OfferedTransferActions` | src/pages/WardTransfers.jsx:321-367 | pending offers approve and cancel; approved offers complete; completed and cancelled offer delete; viewing is always offered |
| `WardTransfers.CompleteNeedsApproval` | src/pages/WardTransfers.jsx:330-367 | a pending or cancelled transfer offers no completion, a finished one offers only viewing and removal, and one of an unknown status only viewing |
| `WardTransfers.RequestFor` | src/pages/WardTransfers.jsx:122-170 | approving asks for status Approved by Admin, cancelling for Cancelled, completing passes the transfer's patient, ward and bed, deleting its id |
| `WardTransfers.OfferedRequestsFollowWorkflow` | src/pages/WardTransfers.jsx:122-170 | every status change the page can request moves a pending transfer on, and names the transfer it was pressed on (also at src/pages/WardTransfers.jsx:330-367) |
| `WardTransfers.AfterChange` | src/pages/WardTransfers.jsx:82-100 | the value is stored; choosing a known patient then copies its ward and bed into the from-fields, an unset one as empty |
| `WardTransfers.SelectionSnapshotsPatient` | src/pages/WardTransfers.jsx:90-99 | selecting a patient makes the request leave from the patient's own ward and bed, and the destination choices then leave that ward out (also at src/pages/WardTransfers.jsx:441) |
| `WardTransfers.ClearingPatientKeepsFromFields` | src/pages/WardTransfers.jsx:90 | clearing the patient choice leaves the last patient's from-fields in place |
| `WardTransfers.TransferRequestForm.constructor` | src/pages/WardTransfers.jsx:37-48 | the form starts as a pending request by a nurse |
| `WardTransfers.TransferRequestForm.OpenModal` | src/pages/WardTransfers.jsx:57-71 | opening resets the form to a pending request and shows it |
| `WardTransfers.TransferRequestForm.HandleChange` | src/pages/WardTransfers.jsx:82-100 | the two successive state updates together give the change's specification |
| `WardTransfers.TransferRequestForm.Submit` | src/pages/WardTransfers.jsx:102-120 | the form is sent as it stands, and closes when the store accepts |
| `PatientsPage.ChoicesAreActive` | src/pages/Patients.jsx:523-526 | the status choices are exactly the statuses that hold a bed, so Discharged is never chosen |
| `PatientsPage.PrefillPatient` | src/pages/Patients.jsx:52-66 | the edit form shows the patient's own fields, the age as its text |
| `PatientsPage.SubmittedInfo` | src/pages/Patients.jsx:94-97 | the submission keeps the form's name, ward and status as they are (the age is parsed; see `PatientsPage.PrefillRoundTrip`) |
| `PatientsPage.PrefillRoundTrip` | src/pages/Patients.jsx:52-97 | opening a patient and submitting untouched gives back the patient's own record |
| `PatientsPage.ApplyEdit` | src/pages/Patients.jsx:137-142 | the changed input takes its value; the status and ward change only by their own inputs |
| `PatientsPage.TransferRequest` | src/pages/Patients.jsx:169-180 | the request carries the patient's id, ward and bed as from-fields, the form's to-fields and status Pending |
| `PatientsPage.TransferRequestMatchesTransferPage` | src/pages/Patients.jsx:169-180 | the request from the patient list leaves from where the transfer page's patient selection would (also at src/pages/WardTransfers.jsx:90-99) |
| `PatientsPage.OfferedPatientActions` | src/pages/Patients.jsx:342-386 | forms, edit and delete are always offered; transfer and discharge exactly for a patient not discharged |
| `PatientsPage.OfferedDischargeFreesBed` | src/pages/Patients.jsx:362-368 | a patient offered discharge in a ward holds a bed there, and the discharged record no longer counts in that ward's census (also at src/context/AppContext.jsx:319-322) |
| `PatientsPage.FilteredPatientsExact` | src/pages/Patients.jsx:220-225 | a patient is listed exactly when the term occurs in its name or diagnosis and the filter is All or its status, in order |
| `PatientsPage.StatusFilterIsExact` | src/pages/Patients.jsx:223 | filtering by a status lists only patients in it |
| `PatientsPage.ExistingForms` | src/pages/Patients.jsx:589 | the forms passed to the modal are the patient forms followed by the operating-theatre forms |
| `PatientsPage.HandleSaveForm` | src/pages/Patients.jsx:198-217 | a form of type OT goes first in the operating-theatre list, any other first in the patient-form list; a rejection changes nothing |
| `PatientsPage.PatientsPage.constructor` | src/pages/Patients.jsx:12-50 | the page starts with both modals closed and the blank forms |
| `PatientsPage.PatientsPage.OpenModal` | src/pages/Patients.jsx:52-83 | the modal opens on the patient's fields to edit, or on the blank form |
| `PatientsPage.PatientsPage.CloseModal` | src/pages/Patients.jsx:85-88 | the modal closes and forgets the patient being edited |
| `PatientsPage.PatientsPage.HandleChange` | src/pages/Patients.jsx:137-142 | the form takes the edit and the rest of the page stays |
| `PatientsPage.PatientsPage.Submit` | src/pages/Patients.jsx:90-117 | an edit goes to update with the patient's id, a new patient to add; a new patient is always active; the modal closes when the store accepts |
| `PatientsPage.PatientsPage.OpenTransferModal` | src/pages/Patients.jsx:151-162 | the transfer modal opens on the patient with a blank form |
| `PatientsPage.PatientsPage.SubmitTransfer` | src/pages/Patients.jsx:164-196 | the request for the selected patient is sent; the modal closes and forgets the patient when the store accepts |
| `Dashboard.AvailableBedsAddUp` | src/pages/Dashboard.jsx:11-13 | when every ward's tallies agree, total less occupied is the sum of the wards' free beds and is at most the total |
| `Dashboard.OccupancyTenths` | src/pages/Dashboard.jsx:14 | the rate is 0 without beds, and otherwise the nearest tenth of a per cent of occupied over total |
| `Dashboard.OccupancyTenthsInRange` | src/pages/Dashboard.jsx:14 | with no more beds occupied than there are, the rate is between 0.0 and 100.0 |
| `Dashboard.ActiveStaffCounted` | src/pages/Dashboard.jsx:18 | the active staff figure is the length of the list of members with status `Active`; it is positive exactly when someone is active, and all the staff exactly when everyone is |
| `Dashboard.PatientCountsAgree` | src/pages/Dashboard.jsx:16-17 | active and discharged patients add up to all patients, and the critical ones are among the active |
| `Dashboard.CriticalAlertShown` | src/pages/Dashboard.jsx:17 | the critical alert shows exactly when some patient is critical (also at src/pages/Dashboard.jsx:187) |
| `Dashboard.ActiveByStatus` | src/pages/Dashboard.jsx:16-32 | the active patients are the admitted, critical, stable and recovering ones counted apart |
| `Dashboard.StatusDataShape` | src/pages/Dashboard.jsx:28-33 | the chart lists the four statuses in order, keeps exactly those with a patient, and its slices add up to the active patients |
| `Dashboard.InsertPermutes` | src/pages/Dashboard.jsx:38-39 | inserting a patient into the sorted list adds exactly that patient |
| `Dashboard.InsertKeepsOrder` | src/pages/Dashboard.jsx:38-39 | inserting into a list sorted newest first keeps it sorted |
| `Dashboard.SortByAdmissionSorts` | src/pages/Dashboard.jsx:38-39 | the sorted copy is newest first and holds the same patients |
| `Dashboard.RecentPatientsAreNewest` | src/pages/Dashboard.jsx:38-40 | at most five patients, all from the list, newest first, and none left out was admitted later than one shown |
| `FormCatalog.CategoryNameOt` | src/data/otForms.js:4-132 | a category's name is `OT` exactly for the operating-theatre category |
| `FormCatalog.CatalogShape` | src/data/monitoringForms.js:141 | the catalog is the monitoring forms, then the billing forms, then the operating-theatre forms, 22 in all |
| `FormCatalog.CatalogIdsDistinct` | src/data/monitoringForms.js:6-126 | no two templates of the catalog share an identifier (also at src/data/otForms.js:4-132) |
| `FormCatalog.IdsAreNotOt` | src/data/monitoringForms.js:6-126 | no template's identifier is empty or `OT` (also at src/data/otForms.js:4-132) |
| `FormCatalog.EveryFormHasPages` | src/data/monitoringForms.js:6-126 | every template has at least one page, and every operating-theatre template a required role (also at src/data/otForms.js:4-132) |
| `FormCatalog.OtFormsAreOtCategory` | src/data/otForms.js:4-132 | the operating-theatre templates are exactly the catalog's templates of category OT |
| `FormCatalog.CategoriesCoverCatalog` | src/data/monitoringForms.js:128-138 | every template's category is one of the category buttons |
| `FormCatalog.FindByOwnId` | src/data/monitoringForms.js:143-145 | searching a list for an identifier finds the first template that has it |
| `FormCatalog.GetFormByOwnId` | src/data/monitoringForms.js:143-145 | looking up a template's identifier finds that template |
| `FormCatalog.GetFormByUnknownId` | src/data/monitoringForms.js:143-145 | an identifier no template has finds nothing |
| `FormCatalog.OtLookupAgrees` | src/data/otForms.js:134-136 | the operating-theatre lookup finds the operating-theatre templates by identifier, and nothing else |
| `FormCatalog.GetFormsByCategoryExact` | src/data/monitoringForms.js:147-150 | All gives the whole catalog; any other category gives exactly its templates, in order |
| `FormCatalog.GetOtFormsByRoleExact` | src/data/otForms.js:138-140 | a role gives exactly the operating-theatre templates that require it, in order |
| `PageControls.PagingStaysOnPage` | src/components/DrawableFormViewer.jsx:230-240 | previous and next keep the page within the pages, and leave it unchanged exactly at the first or last page |
| `PageControls.PagingRoundTrip` | src/components/FormViewer.jsx:15-25 | next then previous, and previous then next, return to the page away from the ends |
| `PageControls.ZoomStaysInRange` | src/components/DrawableFormViewer.jsx:242-248 | zooming keeps the zoom between 50 and 200 in steps of 25 |
| `PageControls.ZoomRoundTrip` | src/components/SavedFormViewer.jsx:35-41 | zooming in then out, and out then in, return to the zoom away from the limits |
| `PageControls.PageView.constructor` | src/components/DrawableFormViewer.jsx:5-6 | a view opens on the first page at 100 per cent |
| `PageControls.PageView.Prev` | src/components/DrawableFormViewer.jsx:230-234 | the page moves back one unless on the first |
| `PageControls.PageView.Next` | src/components/DrawableFormViewer.jsx:236-240 | the page moves on one unless on the last |
| `PageControls.PageView.ZoomInView` | src/components/DrawableFormViewer.jsx:242-244 | the zoom rises by 25 up to 200 |
| `PageControls.PageView.ZoomOutView` | src/components/DrawableFormViewer.jsx:246-248 | the zoom falls by 25 down to 50 |
| `DrawableForms.Take` | src/components/DrawableFormViewer.jsx:155 | `slice(0, n)`: the first n entries, or all when there are fewer |
| `DrawableForms.EmptyCanvasCoherent` | src/components/DrawableFormViewer.jsx:16-18 | the empty canvas has every page coherent |
| `DrawableForms.OtherPagesUntouched` | src/components/DrawableFormViewer.jsx:143-228 | a stroke, undo, redo or clear on one page leaves every other page's drawing, history and step as they were |
| `DrawableForms.StrokeKeepsCoherent` | src/components/DrawableFormViewer.jsx:143-161 | a stroke keeps the page coherent (step at most the history length) and shows the new image |
| `DrawableForms.UndoKeepsCoherent` | src/components/DrawableFormViewer.jsx:164-181 | undo keeps the page coherent |
| `DrawableForms.RedoKeepsCoherent` | src/components/DrawableFormViewer.jsx:183-202 | redo keeps the page coherent |
| `DrawableForms.ClearKeepsCoherent` | src/components/DrawableFormViewer.jsx:204-228 | clearing keeps the canvas coherent and leaves the page undrawn at step 0, after which undo and redo do nothing |
| `DrawableForms.UndoAfterStrokeReshows` | src/components/DrawableFormViewer.jsx:150-181 | with the step at the history's end, the first undo after a stroke shows the stroke's own image again |
| `DrawableForms.FirstStrokeSurvivesUndo` | src/components/DrawableFormViewer.jsx:150-181 | after the first stroke on a page, undo shows that stroke and a second undo changes nothing more |
| `DrawableForms.RedoRevertsUndo` | src/components/DrawableFormViewer.jsx:164-202 | inside the history, a redo after an undo restores the canvas |
| `DrawableForms.StrokeAfterUndoTruncates` | src/components/DrawableFormViewer.jsx:150-161 | a stroke after undoing keeps the history up to the shown entry and appends the image, and undo then shows what was shown before |
| `DrawableForms.RunKeepsCoherent` | src/components/DrawableFormViewer.jsx:143-228 | any sequence of strokes, undos, redos and clears keeps every page coherent, so the step never exceeds the history |
| `DrawableForms.SaveRecord` | src/components/DrawableFormViewer.jsx:286-306 | nothing is saved when the name is blank after trimming; otherwise a completed record with the trimmed name and notes, the category as its type, the template's id and the drawings |
| `DrawableForms.SaveRecordRoutesByCategory` | src/components/DrawableFormViewer.jsx:296 | a saved drawing is of type OT exactly when its template is of category OT (also at src/pages/Patients.jsx:200) |
| `DrawableForms.DrawableFormViewer.constructor` | src/components/DrawableFormViewer.jsx:5-18 | the viewer opens on the first page at 100 per cent with an empty canvas, no details and the role Nurse |
| `DrawableForms.DrawableFormViewer.StartDrawing` | src/components/DrawableFormViewer.jsx:83-92 | drawing starts and the canvas is unchanged |
| `DrawableForms.DrawableFormViewer.StopDrawing` | src/components/DrawableFormViewer.jsx:119-162 | when drawing, the stroke is pushed on the current page; otherwise nothing changes |
| `DrawableForms.DrawableFormViewer.HandleUndo` | src/components/DrawableFormViewer.jsx:164-181 | the canvas takes the undo of the current page |
| `DrawableForms.DrawableFormViewer.HandleRedo` | src/components/DrawableFormViewer.jsx:183-202 | the canvas takes the redo of the current page |
| `DrawableForms.DrawableFormViewer.HandleClearPage` | src/components/DrawableFormViewer.jsx:204-228 | a confirmed clear removes the current page from the canvas; otherwise nothing changes |
| `DrawableForms.DrawableFormViewer.EnterDetails` | src/components/DrawableFormViewer.jsx:490-520 | the name, role and notes inputs take their values |
| `DrawableForms.DrawableFormViewer.HandleSave` | src/components/DrawableFormViewer.jsx:286-306 | the record handed over is the save record of the viewer's state |
| `PlainForms.ViewerRecord` | src/components/FormViewer.jsx:35-54 | nothing is saved when the name is blank after trimming; otherwise a completed record with the trimmed name and notes, the template's id as its type, the patient's name and the time |
| `PlainForms.ViewerRecordIsNeverOt` | src/components/FormViewer.jsx:44 | a record saved by this viewer is never of type OT (also at src/pages/Patients.jsx:200) |
| `PlainForms.FormViewer.constructor` | src/components/FormViewer.jsx:5-9 | the viewer opens on the first page at 100 per cent with no details and the role Nurse |
| `PlainForms.FormViewer.EnterDetails` | src/components/FormViewer.jsx:143-170 | the name, role and notes inputs take their values |
| `PlainForms.FormViewer.HandleSave` | src/components/FormViewer.jsx:35-54 | the record handed over is the viewer record of its state |
| `SavedForms.DrawnRecordFindsTemplate` | src/components/SavedFormViewer.jsx:13 | a record saved by the drawing viewer opens its own template again |
| `SavedForms.PlainRecordFindsTemplate` | src/components/SavedFormViewer.jsx:13 | a record saved by the plain viewer has no id, and its type finds its template |
| `SavedForms.UnknownRecordOpensNothing` | src/components/SavedFormViewer.jsx:13-17 | a record naming no template opens nothing |
| `SavedForms.PageImage` | src/components/SavedFormViewer.jsx:20-21 | a page shows its stored drawing when there is one, and the template's blank page otherwise (also at src/components/SavedFormViewer.jsx:127-140) |
| `SavedForms.SavedViewerShowsLastShown` | src/components/SavedFormViewer.jsx:127-140 | a record of a coherent canvas shows every drawn page as the drawing viewer last showed it, and every other page blank (also at src/components/DrawableFormViewer.jsx:296) |
| `SavedForms.DownloadName` | src/components/SavedFormViewer.jsx:47-62 | the download name ends in `.png` |
| `SavedForms.FilledNameDiffers` | src/components/SavedFormViewer.jsx:47-62 | a drawn page and a blank page never download under the same name |
| `SavedForms.DownloadOf` | src/components/SavedFormViewer.jsx:43-67 | the download holds the page's image under the `_Filled` name exactly when the page has a drawing |
| `SavedForms.SavedFormViewer.constructor` | src/components/SavedFormViewer.jsx:7-19 | the viewer opens on the first page at 100 per cent, only for a record whose template was found |
| `SavedForms.SavedFormViewer.Shown` | src/components/SavedFormViewer.jsx:127-140 | the image on screen is the current page's image, and there always is one |
| `SavedForms.SavedFormViewer.HandleDownload` | src/components/SavedFormViewer.jsx:43-67 | the download of the current page |
| `FormsModal.PatientFormsExact` | src/components/PatientFormsModal.jsx:20 | the history lists exactly the forms of the patient, in order |
| `FormsModal.SavedFormIsListed` | src/components/PatientFormsModal.jsx:20 | a form saved for the patient is listed in the history whichever list holds it (also at src/pages/Patients.jsx:589) |
| `FormsModal.PatientFormsModal.FilteredForms` | src/components/PatientFormsModal.jsx:16-18 | All lists the whole catalog; a category lists only its templates |
| `FormsModal.PatientFormsModal.constructor` | src/components/PatientFormsModal.jsx:9-12 | the state when the page first mounts: closed, no patient, the select tab with the All category and nothing selected (also at src/pages/Patients.jsx:12-13) |
| `FormsModal.PatientFormsModal.Open` | src/pages/Patients.jsx:345-348 | the forms button sets the patient and opens the modal, which keeps the tab, category, selections and viewer it was closed with (also at src/components/PatientFormsModal.jsx:14) |
| `FormsModal.PatientFormsModal.Close` | src/pages/Patients.jsx:584-587 | closing clears the patient and hides the modal and leaves its own state as it was (also at src/components/PatientFormsModal.jsx:14) |
| `FormsModal.PatientFormsModal.SelectCategory` | src/components/PatientFormsModal.jsx:9-18 | the category takes the choice and the list follows it |
| `FormsModal.PatientFormsModal.ShowTab` | src/components/PatientFormsModal.jsx:63-76 | the tabs switch between select and history and show no viewer |
| `FormsModal.PatientFormsModal.HandleFormSelect` | src/components/PatientFormsModal.jsx:22-25 | selecting a template opens the drawing viewer on it (also at src/components/PatientFormsModal.jsx:215) |
| `FormsModal.PatientFormsModal.HandleSaveForm` | src/components/PatientFormsModal.jsx:27-31 | the form is stored by the page's handler, then the viewer closes onto the history tab whatever the store's reply; the refresh fetch that follows an accepted insert is remote I/O, left out |
| `FormsModal.PatientFormsModal.HandleCloseViewer` | src/components/PatientFormsModal.jsx:33-36 | closing the viewer clears the selection and returns to the select tab |
| `FormsModal.PatientFormsModal.OpenSavedForm` | src/components/PatientFormsModal.jsx:163-166 | clicking a saved form opens it in the saved viewer (also at src/components/PatientFormsModal.jsx:225) |
| `FormsModal.PatientFormsModal.CloseSavedForm` | src/components/PatientFormsModal.jsx:229-232 | closing the saved viewer returns to the history tab |
| `StaffPage.FilteredStaffExact` | src/pages/Staff.jsx:101-107 | a member is listed exactly when the term occurs in the name or specialization and both filters admit it, All admitting anyone, in order |
| `StaffPage.UnfilteredListsEveryone` | src/pages/Staff.jsx:101-107 | with no term and both filters All, everyone is listed |
| `StaffPage.KeepFirstIsDistinct` | src/pages/Staff.jsx:109-110 | the de-duplicated list holds each value once and nothing else, in the order the values first occur |
| `StaffPage.ChoicesAreDistinct` | src/pages/Staff.jsx:109-110 | the role and department choices are All, then each member's value once and only members' values |
| `StaffPage.GroupsAreDisjoint` | src/pages/Staff.jsx:113-114 | the doctors and the nurses are exactly the list's members of those roles, in order, and nobody is in both |
| `StaffPage.Split` | src/pages/Staff.jsx:183 | `split(' ')` always gives at least one part |
| `StaffPage.InitialsAreWordStarts` | src/pages/Staff.jsx:183 | the first characters of the parts are the characters that begin a word |
| `StaffPage.InitialsOfName` | src/pages/Staff.jsx:183 | the avatar shows the first character of every space-separated word of the name, in order |
| `StaffPage.ApplyChange` | src/pages/Staff.jsx:93-98 | the named field takes the value and every other field stays |
| `StaffPage.StaffPage.constructor` | src/pages/Staff.jsx:10-24 | the page starts with the modal closed on the new-member defaults |
| `StaffPage.StaffPage.OpenModal` | src/pages/Staff.jsx:26-53 | the modal opens on the member's fields to edit, or on the defaults (Nurse, Morning, Active) |
| `StaffPage.StaffPage.CloseModal` | src/pages/Staff.jsx:55-58 | the modal closes and forgets the member being edited |
| `StaffPage.StaffPage.HandleChange` | src/pages/Staff.jsx:93-98 | the form takes the change |
| `StaffPage.StaffPage.Submit` | src/pages/Staff.jsx:60-82 | an edit goes to update with the member's id, a new member to add; the modal closes when the store accepts |
| `StaffPage.EditUnchanged` | src/pages/Staff.jsx:26-67 | opening a member and submitting untouched sends its own record under its own id |
| `WardsPage.WardRate` | src/pages/Wards.jsx:126 | with beds, the whole percent nearest occupied over total; without beds, Infinity exactly when a bed is occupied and NaN exactly when none is |
| `WardsPage.BandByOccupancy` | src/pages/Wards.jsx:126-175 | red exactly from 89.5 per cent, yellow exactly from 69.5 up to that, green below |
| `WardsPage.FullAndEmptyWards` | src/pages/Wards.jsx:126-175 | a full ward shows 100 per cent in red, an empty one 0 per cent in green |
| `WardsPage.BedlessWardBand` | src/pages/Wards.jsx:126-175 | a ward without beds is red exactly when a bed is occupied |
| `WardsPage.SubmittedWard` | src/pages/Wards.jsx:55-65 | floor, total and occupied are parsed as integers; the free beds are total less occupied, and NaN when either is not a number |
| `WardsPage.SubmittedTalliesAgree` | src/pages/Wards.jsx:55-65 | a ward record is made exactly when the three numbers parse, and its free beds are then total less occupied |
| `WardsPage.PrefillRoundTrip` | src/pages/Wards.jsx:22-65 | opening a ward and submitting untouched sends the ward with its free beds recomputed, which is the ward itself when its tallies agreed |
| `WardsPage.ApplyChange` | src/pages/Wards.jsx:96-101 | the named field takes the value and every other field stays |
| `WardsPage.WardsPage.constructor` | src/pages/Wards.jsx:10-19 | the page starts with the modal closed on an empty form |
| `WardsPage.WardsPage.OpenModal` | src/pages/Wards.jsx:21-44 | the modal opens on the ward's fields to edit, or on an empty form |
| `WardsPage.WardsPage.CloseModal` | src/pages/Wards.jsx:46-49 | the modal closes and forgets the ward being edited |
| `WardsPage.WardsPage.HandleChange` | src/pages/Wards.jsx:96-101 | the form takes the change |
| `WardsPage.WardsPage.Submit` | src/pages/Wards.jsx:51-85 | an edit goes to update with the ward's id, a new ward to add, with the submitted data; the modal closes when the store accepts |
| `Text.Contains` | src/pages/Patients.jsx:221-222 | `includes`: the term occurs at some position |
| `Text.ParseIntOfIntToString` | src/pages/Patients.jsx:96 | `parseInt` of an integer's text gives the integer back (also at src/pages/Wards.jsx:55-61) |
| `Text.RoundQuotient` | src/pages/Dashboard.jsx:14 | the quotient rounded to the nearest integer, halves away from zero, as `toFixed` rounds it (also at src/pages/Wards.jsx:126) |

## Left out

- KeyCase.Entries: the order `Object.keys` gives (integer-like keys first, in ascending order, then the rest in insertion order) is not modelled; entries keep the order they are given in.
- Remote I/O is left out: the Supabase queries, the fetch functions and the orders they sort by. The model keeps one in-memory list per table and takes each call's outcome as a parameter.
- A bed-count update is one outcome: the ward fetch and the ward write are collapsed into one call, since either failure writes nothing.
- The transfer and billing store functions are not part of this model: creating a transfer (`createWardTransfer`), completing one, changing its status, deleting it, and creating, updating, finalizing or deleting a bill and recording a payment. The pages' side is a call datatype with the request each button sends.
- The application context as written does not provide those functions, nor the lists `wardTransfers`, `bills` and `payments` or their fetchers: its value at src/context/AppContext.jsx:444-468 leaves them out. In that source `wardTransfers.filter` (src/pages/WardTransfers.jsx:173) and `bills.filter` (src/pages/Billing.jsx:236) throw on the first render, and every transfer request ends in its `catch` (src/pages/Patients.jsx:191-192, src/pages/WardTransfers.jsx:115-116). The model treats the transfer and billing pages as though the store supplied these lists and functions, so the `Accept` outcome of `PatientsPage.PatientsPage.SubmitTransfer` and `WardTransfers.TransferRequestForm.Submit` is the one such a store would give.
- React's asynchronous state is modelled as sequential updates. `setWards(wards.map(...))` reads the list of the render, so two bed updates in one `updatePatient` can overwrite each other in the local list; the model applies them one after the other.
- `alert` and `window.confirm` are taken as already answered: a confirmation is a parameter or the handler runs confirmed.
- `new Date()` values are opaque integer parameters, ordered as numbers.
- Canvas work is left out: drawing, image merging, `toDataURL`, coordinates and download links. A merged page image is an opaque string.
- `DrawableForms.DrawableFormViewer.StopDrawing` requires a non-empty image, as every data URL the canvas makes is non-empty.
- `Undo` when the history is missing: the source would read from an undefined history and throw, but this cannot happen while the canvas is coherent, which every handler keeps.
- Floating point is modelled as exact arithmetic: amounts and percentages are `real`, and a rate is rounded from the exact fraction. `toFixed` displays, and float rounding that differs from the exact result, are not modelled.
- `Dashboard.OccupancyTenths` states the nearest tenth for a non-negative count of occupied beds only; for a negative count it states nothing beyond the zero-bed case.
- `toLowerCase` is modelled on ASCII only: other letters are compared as they are.
- `parseInt` is modelled as decimal: leading white space, a sign and a digit prefix. Its hexadecimal `0x` prefix is not modelled, and `NaN` is written `None`.
- Wards are kept as a sequence with unique ids rather than a map: the source keeps an array and replaces or filters by id.
- An unset ward is the empty string. The source's `null` and `''` behave alike in every bed rule.
- A `.single()` update of a missing row is the one `NotFound` error; its message text is not modelled.
- The fresh ids the database assigns are parameters that the caller promises are unused.
- `Store.EditKeepsCensus` is stated only for edits that keep the patient's activity, because the source's rule misses three cases. Re-admitting a discharged patient by editing the status in the same ward takes no bed (`Store.ReadmissionInSameWardTakesNoBed`). Discharging a patient by editing the status in the same ward releases no bed (`Store.DischargeInSameWardKeepsBed`). Moving a patient who holds a bed to another ward with the status `Discharged` releases nothing, since the rule requires a status other than `Discharged` (`Store.DischargedMoveKeepsBed`). All three go through `updatePatient`; the patients form offers only the active statuses, so through it only the first can be made.
- `FormCatalog.GetOtFormsByRole` takes a role of the `Role` datatype. The source accepts any string; a string that is not a role gives the empty list, since no template requires it.
- `Billing.BillEditor.UpdateBillItem` writes a fresh item into the list. The source mutates the item object in place inside a shallow copy, which aliases the previous state's item; that aliasing is not modelled.
- The patient forms modal renders nothing while closed or without a patient; that empty rendering is presentation and is not modelled. It stays mounted while closed, so its tab, category and selections survive closing: `FormsModal.PatientFormsModal.Open` and `Close` change only the patient and `isOpen`.
- The sort of the dashboard's recent admissions is proved sorted and a permutation; that equal dates keep their input order is not proved.
- A ward submitted with a field that is not a number keeps `None` in its data. The store's ward record holds integers, so such a record is not stored in the model.
- `src/App.jsx`, `src/components/Layout.jsx`, `src/components/StatCard.jsx`, `src/components/CriticalPatientsAlert.jsx` and `src/components/BillModal.jsx` are not part of this model: they are routing and markup. BillModal's one rule, the remove button shown only with more than one item, is the precondition of `Billing.BillEditor.RemoveBillItem`.
- The templates of `FormCatalog` carry no description: it is display text that no modelled code reads. Each template keeps its id, name, category, page images and required roles.
- `src/data/mockData.js` and `src/data/activityChartForms.js` are not part of this model: they are static data that no modelled code reads.
