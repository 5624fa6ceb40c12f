# Quail-farm admin panel: a verified model of its data logic

This project models the logic inside the admin views of a small quail
farm's web panel. That logic covers:

- the cage table and its two-step population reduction (`KandangManager`);
- the incubator's hatch-date projection and countdown (`InkubatorManager`);
- the egg-harvest form and its statistics (`TelurManager`);
- the dashboard totals (`Dashboard`);
- the toast queue (`Toast`);
- the confirmation dialog (`ConfirmDialog`).

All of it is written in Dafny, and properties of it are proved.

The hosted backend is replaced by sequences held in the view classes. The
result of every backend write is a parameter: a `WriteResult` of `WriteOk`,
or `WriteErr(message)`. So is the user's answer to the confirmation dialog,
and so is the clock reading (milliseconds since 1970-01-01, UTC). A handler
returns the toast or `alert` it raises as a `Notice`.

Modules, one per file:

| module | file | what it holds |
|---|---|---|
| `Common` | common.dfy | `Option`, `WriteResult`, `Notice`, the shared save-failure toast |
| `Js` | js.dfy | the JavaScript semantics the views rely on: `parseInt` (ECMAScript, `NaN` as `None`), `String(n)`, the `or` fallback on strings |
| `CivilDate` | civil_date.dfy | proleptic Gregorian dates and day numbers counted from 1970-01-01; walking `k` days, as `setDate(getDate() + k)` does |
| `IsoDate` | iso_date.dfy | the `YYYY-MM-DD` text form of a date (extended calendar-date format, section 5.2.1.1 of ISO 8601:2004), as written by `toISOString().split('T')[0]` and read by `new Date(text)` |
| `Toast` | toast.dfy | the toast queue class |
| `ConfirmDialog` | confirm_dialog.dfy | option defaults, the dialog state class, the variant styles |
| `Kandang` | kandang.dfy | the cage view class, its form, the reduction flow, the history rendering |
| `Inkubator` | inkubator.dfy | hatch date, payload, days remaining, the batch list class |
| `Telur` | telur.dfy | harvest validation, stored row, statistics folds, the harvest view class |
| `Dashboard` | dashboard.dfy | the statistics fetch and its relation to the cage operations |

Behaviour of the code worth knowing:

- A reduction writes the cage and then, separately, the history row. If the
  history insert fails, the count stays lowered. `ReduceSubmit` states this.
- The harvest form checks only for negative counts. More damaged eggs than
  eggs are stored with a negative good count (`NegativeGoodCountIsStored`):
  nothing checks that the damaged count is at most the total.
- A count that is not a number (`NaN`) passes the harvest check. It is
  stored as `null` (`UnreadableTotalIsStoredAsNull`).
- A reduction for a cage that is not in the loaded list does nothing,
  without a message.

## Model

| member | source | states |
|---|---|---|
| Js.ParseInt | src/pages/admin/KandangManager.js:110 | no contract of its own: `parseInt` with `NaN` as `None`; `ParseIntRoundTrip`, `ParseIntOfDecimalText`, `ParseIntSkipsWhiteSpace` and `ParseIntWithoutDigits` state what it reads |
| Js.ParseIntRoundTrip | src/pages/admin/KandangManager.js:110 | `parseInt` reads the decimal text of every integer back as that integer |
| Js.ParseIntOfDecimalText | src/pages/admin/KandangManager.js:114 | a number written into a template literal, followed by a non-digit, reads back as that number |
| Js.ParseIntSkipsWhiteSpace | src/pages/admin/KandangManager.js:110 | `parseInt` ignores leading white space |
| Js.ParseIntWithoutDigits | src/pages/admin/KandangManager.js:110-111 | text that starts with no digit, sign or space is `NaN` |
| Js.NaNReadsAsNaN | src/pages/admin/TelurManager.js:33 | `NaN` written into a message reads back as `NaN` |
| Js.OrElse | src/pages/admin/KandangManager.js:147 | a string or its fallback: the string exactly when it is present and non-empty, otherwise the fallback |
| CivilDate.ToDays | src/pages/admin/InkubatorManager.js:80-81 | no contract of its own: the day number of a date counted from 1970-01-01; `FromDaysOfToDays`, `ToDaysIsInjective` and `NotAfterIsDayOrder` relate it to the calendar |
| CivilDate.FromDays | src/pages/admin/InkubatorManager.js:38-39 | no contract of its own: the date `n` days after 1970-01-01, walked day by day; `FromDaysIsDayNumber` and `FromDaysOfToDays` make it the inverse of `ToDays` |
| CivilDate.AddDays | src/pages/admin/InkubatorManager.js:39 | no contract of its own: the date `k` days later; `AddDaysIsDayShift` and `AddDaysOnCalendar` state the shift and the month and year rollover |
| CivilDate.FromDaysIsDayNumber | src/pages/admin/InkubatorManager.js:13 | the date reached by walking `n` days from 1970-01-01 is a valid date whose day number is `n` |
| CivilDate.FromDaysOfToDays | src/pages/admin/InkubatorManager.js:37-39 | every valid date is the walk of its own day number, so dates and day numbers correspond one to one |
| CivilDate.ToDaysIsInjective | src/pages/admin/InkubatorManager.js:37-39 | two valid dates with the same day number are the same date |
| CivilDate.AddDaysIsDayShift | src/pages/admin/InkubatorManager.js:38-39 | `k` days after a date is a valid date exactly `k` day numbers later |
| CivilDate.AddDaysOnCalendar | src/pages/admin/InkubatorManager.js:39 | adding up to 28 days stays in the month when it has room, otherwise it rolls into the next month or into January of the next year |
| CivilDate.NotAfterIsDayOrder | src/pages/admin/InkubatorManager.js:27 | calendar order (year, month, day) is the order of day numbers |
| IsoDate.Format | src/pages/admin/InkubatorManager.js:45 | no contract of its own: the date part of `toISOString()`; `ParseOfFormat` reads it back |
| IsoDate.Parse | src/pages/admin/InkubatorManager.js:80 | no contract of its own: `new Date(text)` for `YYYY-MM-DD`; `FormatOfParse` makes every parsed text the format of its date |
| IsoDate.TodayText | src/pages/admin/InkubatorManager.js:13 | no contract of its own: today's `toISOString` date; `TodayTextIsToday` reads it back as the UTC day of the moment |
| IsoDate.TodayTextIsToday | src/pages/admin/InkubatorManager.js:13 | for a four-digit year, today's text parses to the date whose day number is the whole days since the epoch |
| IsoDate.ParseOfFormat | src/pages/admin/InkubatorManager.js:45 | a date with a four-digit year reads back from its `YYYY-MM-DD` text |
| IsoDate.FormatOfParse | src/pages/admin/InkubatorManager.js:37 | text that reads as a date is exactly that date's text |
| Toast.WithoutId | src/components/Toast.js:24-26 | the filter keeps exactly the toasts whose id differs |
| Toast.Title | src/components/Toast.js:71 | 'success' gives 'Berhasil', 'error' gives 'Gagal', every other type 'Info' |
| Toast.Accent | src/components/Toast.js:57 | the border colour is green, red or blue in the same three cases |
| Toast.ToastProvider.constructor | src/components/Toast.js:12 | the queue starts empty |
| Toast.ToastProvider.ShowToast | src/components/Toast.js:14-16 | one toast is appended at the end, with id = the clock reading and type defaulting to 'success'; earlier toasts keep their order |
| Toast.ToastProvider.RemoveToast | src/components/Toast.js:24-26 | the queue becomes the filter of the old queue by that id |
| Toast.ToastProvider.Expire | src/components/Toast.js:19-21 | the timer's expiry filters by the toast's id, as the close button does |
| Toast.WithoutIdOfConcat | src/components/Toast.js:25 | filtering distributes over concatenation, so the survivors keep their order |
| Toast.WithoutAbsentId | src/components/Toast.js:25 | removing an id no toast has changes nothing |
| Toast.WithoutIdIsIdempotent | src/components/Toast.js:25 | removing twice is removing once |
| Toast.WithoutIdCommutes | src/components/Toast.js:25 | removals of two ids commute |
| Toast.ExpiryRemovesOnlyThatToast | src/components/Toast.js:15-21 | a toast with a fresh id, once expired, leaves the queue as it was before it was shown |
| Toast.ExpiryRemovesSameMillisecondToasts | src/components/Toast.js:15-20 | two toasts shown in the same millisecond share an id, so the first expiry also removes the second |
| ConfirmDialog.DefaultLabel | src/components/ConfirmDialog.js:22 | the default label is 'Hapus' exactly for the 'danger' variant, otherwise 'Ya, Lanjutkan' |
| ConfirmDialog.Opened | src/components/ConfirmDialog.js:21-30 | `confirm` opens with the given message; title, variant and label are the given ones or their defaults ('Konfirmasi', 'danger', the label for the variant in force) |
| ConfirmDialog.Closed | src/components/ConfirmDialog.js:33 | closing clears `open` and keeps title, message, variant and label |
| ConfirmDialog.GetStyles | src/components/ConfirmDialog.js:44-60 | 'confirm' and 'info' get their own style; every other variant gets the danger style |
| ConfirmDialog.ConfirmProvider.constructor | src/components/ConfirmDialog.js:12-19 | the closed initial dialog, with no callbacks and nothing pending |
| ConfirmDialog.ConfirmProvider.Confirm | src/components/ConfirmDialog.js:21-40 | the dialog becomes `Opened(...)` and a request is pending |
| ConfirmDialog.ConfirmProvider.OnConfirm | src/components/ConfirmDialog.js:31-34 | a pending request settles with true; the dialog closes and keeps its other fields |
| ConfirmDialog.ConfirmProvider.OnCancel | src/components/ConfirmDialog.js:35-38 | a pending request settles with false; the dialog closes and keeps its other fields |
| ConfirmDialog.ConfirmProvider.OnBackdropClick | src/components/ConfirmDialog.js:79 | a click on the backdrop has exactly the effect of cancel |
| ConfirmDialog.ConfirmProvider.Settle | src/components/ConfirmDialog.js:31-38 | a request settles at most once; before the first `confirm` there is no callback and nothing changes |
| ConfirmDialog.DefaultsOfBareConfirm | src/components/ConfirmDialog.js:21-22 | `confirm(message)` alone asks a 'danger' question titled 'Konfirmasi' with a 'Hapus' button |
| ConfirmDialog.DefaultLabelOfOtherVariant | src/components/ConfirmDialog.js:22 | a variant other than 'danger' without a label gets 'Ya, Lanjutkan' |
| Kandang.SetPopulation | src/pages/admin/KandangManager.js:133-136 | no contract of its own: the table after `update({ jumlah_puyuh }).eq('id')`; `SetPopulationChangesOnlyCount` and `SetPopulationKeepsInvariant` state what it changes and keeps |
| Kandang.WithoutCage | src/pages/admin/KandangManager.js:87 | no contract of its own: the table after `delete().eq('id')`; `WithoutCageKeepsTheRest`, `DeleteRemovesOneRow` and `WithoutAbsentCage` state what it keeps |
| Kandang.Submittable | src/pages/admin/KandangManager.js:42 | no contract of its own: the guard that refuses a missing name or capacity; `EmptyFormIsNotSubmittable` and `EditedFormRoundTrip` state when it holds |
| Kandang.EditForm | src/pages/admin/KandangManager.js:75-82 | no contract of its own: the form `handleEdit` fills in; `EditedFormRoundTrip` states that it resubmits the row unchanged |
| Kandang.IntColumn | src/pages/admin/KandangManager.js:55-62 | a number field is stored as its value; `IntColumnOfDecimalText`, `IntColumnAgreesWithParseInt` and `EmptyPopulationIsRejected` state how text is read |
| Kandang.FindCage | src/pages/admin/KandangManager.js:123 | the result is a loaded cage with the requested id, and it is absent exactly when no loaded cage has that id (or the id is `null`) |
| Kandang.SetRow | src/pages/admin/KandangManager.js:55-58 | the update by id rewrites exactly the rows with that id and keeps every id and every other row |
| Kandang.Coerce | src/pages/admin/KandangManager.js:57 | a form is stored exactly when both integer fields are readable, with their values; otherwise the write fails with the backend's message |
| Kandang.SubmitQuestion | src/pages/admin/KandangManager.js:44-49 | the question is titled 'Update Data' or 'Tambah Kandang', labelled 'Update' or 'Simpan', with the confirm style |
| Kandang.ReductionAmount | src/pages/admin/KandangManager.js:110-111 | an amount passes exactly when `parseInt` reads a positive number, and it is that number |
| Kandang.ReduceQuestion | src/pages/admin/KandangManager.js:113-117 | the question titled 'Konfirmasi Pengurangan' with the 'Kurangi' button carries the amount; its 'warning' variant falls back to the danger style |
| Kandang.Actor | src/pages/admin/KandangManager.js:148 | the actor is the full name if non-empty, else the e-mail if non-empty, else 'Unknown'; it is never empty |
| Kandang.ReductionEntry | src/pages/admin/KandangManager.js:142-150 | the history row holds the cage id, the amount, 'pengurangan', the chosen reason, the note or '-', the actor and the clock reading |
| Kandang.PopulationBadge | src/pages/admin/KandangManager.js:322-323 | the badge is red exactly when the population exceeds the capacity |
| Kandang.ChangeText | src/pages/admin/KandangManager.js:415 | the change column starts with '-' exactly for 'pengurangan', otherwise '+', and then reads as the amount |
| Kandang.ShowHistory | src/pages/admin/KandangManager.js:404-428 | a history line shows the found cage's name (or 'Unknown' when the cage is missing or unnamed), the reason or '-' when it is empty, the note's own text exactly when it is non-empty, the user column as stored, and the sign followed by text that reads back as the amount |
| Kandang.KandangManager.constructor | src/pages/admin/KandangManager.js:13-26 | the view starts on the given tables with an empty form, no cage being edited, the modal closed and the reduction form fresh |
| Kandang.KandangManager.TypeName | src/pages/admin/KandangManager.js:187 | only the form's name changes |
| Kandang.KandangManager.TypeCapacity | src/pages/admin/KandangManager.js:197 | only the form's capacity changes |
| Kandang.KandangManager.TypePopulation | src/pages/admin/KandangManager.js:207 | only the form's population changes |
| Kandang.KandangManager.Submit | src/pages/admin/KandangManager.js:40-73 | no name/capacity or no confirmation: nothing changes; a failed write: a save-failure toast with the message, nothing else; success: the edited row is rewritten or a new cage appended with the next id, the form is reset, the matching toast is shown; the id invariant is kept |
| Kandang.KandangManager.Edit | src/pages/admin/KandangManager.js:75-82 | the form takes the cage's values and the cage becomes the one being edited; the tables are untouched |
| Kandang.KandangManager.ResetForm | src/pages/admin/KandangManager.js:97-100 | the form is empty and nothing is being edited; the tables are untouched |
| Kandang.KandangManager.Delete | src/pages/admin/KandangManager.js:84-95 | after confirmation and a successful delete the cages with that id are gone; a failed delete shows its message; nothing else changes |
| Kandang.KandangManager.OpenReduceModal | src/pages/admin/KandangManager.js:103-106 | the modal opens on that cage with a fresh reduction form |
| Kandang.KandangManager.CloseReduceModal | src/pages/admin/KandangManager.js:278 | only the modal's `open` flag changes |
| Kandang.KandangManager.FillReduceData | src/pages/admin/KandangManager.js:238-267 | only the reduction form changes |
| Kandang.KandangManager.ReduceSubmit | src/pages/admin/KandangManager.js:108-164 | an amount that is not positive, no confirmation, an unknown cage, an amount above the population or a failed cage update each leave cages and history unchanged (with their toasts); otherwise the target's count drops by the amount, and the history row is appended only if its insert succeeds |
| Kandang.KandangManager.ReduceConfirmed | src/pages/admin/KandangManager.js:120-138 | after confirmation: the lookup, the population check and the cage update, each failure leaving both tables unchanged |
| Kandang.KandangManager.CommitReduction | src/pages/admin/KandangManager.js:140-163 | after a successful cage update: the new count is kept whether or not the history insert succeeds, the toast tells the two apart, the modal closes |
| Kandang.ReductionAmountOfDecimal | src/pages/admin/KandangManager.js:110-111 | the decimal text of `n` is accepted exactly when `n > 0`, as `n` |
| Kandang.SetPopulationChangesOnlyCount | src/pages/admin/KandangManager.js:133-136 | the update by id changes only the population of the rows with that id |
| Kandang.ReductionOnlyLowersTarget | src/pages/admin/KandangManager.js:126-136 | an accepted reduction leaves the target with old − amount ≥ 0 and every other cage untouched |
| Kandang.WithoutAbsentCage | src/pages/admin/KandangManager.js:87 | deleting an id no cage has changes nothing |
| Kandang.DeleteRemovesOneRow | src/pages/admin/KandangManager.js:87 | with unique ids, deleting row `k`'s id removes that row only and keeps the order |
| Kandang.WithoutCageKeepsTheRest | src/pages/admin/KandangManager.js:87 | a delete keeps exactly the cages with other ids, in ascending id order |
| Kandang.IdsAreUnique | src/pages/admin/KandangManager.js:34 | in the table ordered by id, the id determines the cage |
| Kandang.SetPopulationKeepsInvariant | src/pages/admin/KandangManager.js:133-136 | a population update keeps ids ascending and within bounds |
| Kandang.LoggedReductionShowsMinus | src/pages/admin/KandangManager.js:415 | a logged reduction is shown as '-' and its amount, with its note and its actor |
| Kandang.EmptyFormIsNotSubmittable | src/pages/admin/KandangManager.js:42 | the reset form never submits |
| Kandang.EditedFormRoundTrip | src/pages/admin/KandangManager.js:75-82 | a cage put into the form submits again exactly when it has a name and a non-zero capacity, and is stored with its own values |
| Kandang.IntColumnOfDecimalText | src/pages/admin/KandangManager.js:57 | the decimal text of an integer is stored as that integer |
| Kandang.IntColumnAgreesWithParseInt | src/pages/admin/KandangManager.js:57 | text the integer column accepts is what `parseInt` reads it as |
| Kandang.EmptyPopulationIsRejected | src/pages/admin/KandangManager.js:62 | a new cage without an initial population is refused by the backend |
| Inkubator.HatchDate | src/pages/admin/InkubatorManager.js:37-39 | no contract of its own: intake plus 17 days; `HatchDateIsSeventeenDaysLater` states the shift and the rollover |
| Inkubator.DaysRemaining | src/pages/admin/InkubatorManager.js:78-84 | no contract of its own: `Math.ceil((target - today) / day)`; `DaysRemainingIsDayDifference` makes it the hatch day number less today's |
| Inkubator.IsHatching | src/pages/admin/InkubatorManager.js:153 | no contract of its own: `daysLeft <= 0`; `HatchingIffHatchDayReached` and `HatchingIsMonotone` state when it holds |
| Inkubator.SortedByHatch | src/pages/admin/InkubatorManager.js:27 | no contract of its own: the `order('estimasi_menetas', ascending)` of the list; `InsertByHatch` keeps it |
| Inkubator.Payload | src/pages/admin/InkubatorManager.js:36-47 | the payload exists exactly when the intake date reads; it has status 'inkubasi', the parsed egg count, the form's date and source, and a hatch date 17 day numbers later |
| Inkubator.CeilDays | src/pages/admin/InkubatorManager.js:82 | the ceiling of a millisecond count in days |
| Inkubator.StatusText | src/pages/admin/InkubatorManager.js:186 | 'SIAP MENETAS / SUDAH MENETAS' when hatching, otherwise 'Menetas dalam ' followed by text that reads as the days remaining ('NaN hari' for an unreadable date) |
| Inkubator.SourceLabel | src/pages/admin/InkubatorManager.js:170 | 'Beli' exactly for 'beli', otherwise 'Produksi' |
| Inkubator.InsertByHatch | src/pages/admin/InkubatorManager.js:27 | the refetched list holds the old batches and the new one, and stays ordered by hatch date |
| Inkubator.InkubatorManager.constructor | src/pages/admin/InkubatorManager.js:12-16 | the form starts with today's UTC date, no egg count and source 'produksi' |
| Inkubator.InkubatorManager.Fill | src/pages/admin/InkubatorManager.js:105-122 | only the form changes |
| Inkubator.InkubatorManager.Submit | src/pages/admin/InkubatorManager.js:33-65 | an unreadable date or no confirmation changes nothing; a failed insert shows its message; a successful one inserts the payload in hatch order, clears only the egg count and names the hatch date in the toast |
| Inkubator.HatchDateIsSeventeenDaysLater | src/pages/admin/InkubatorManager.js:36-39 | the hatch date is exactly 17 days after intake, rolling into the next month or year as the calendar demands |
| Inkubator.SentHatchDateReadsBack | src/pages/admin/InkubatorManager.js:45 | the hatch-date text sent with the payload reads back as the same date |
| Inkubator.DaysRemainingIsDayDifference | src/pages/admin/InkubatorManager.js:78-84 | days remaining is the hatch day number less today's UTC day number |
| Inkubator.HatchingIffHatchDayReached | src/pages/admin/InkubatorManager.js:152-153 | a batch is hatching exactly when its date reads and today is its hatch day or later |
| Inkubator.HatchingIsMonotone | src/pages/admin/InkubatorManager.js:152-153 | once hatching, a batch stays hatching as the clock advances |
| Inkubator.IncubationExample | src/pages/admin/InkubatorManager.js:36-45 | intake 2024-01-01 hatches 2024-01-18; on 2024-01-10 it has 8 days left and is not hatching; on 2024-01-20 it is hatching |
| Inkubator.ExampleCountdown | src/pages/admin/InkubatorManager.js:78-84 | a batch due 2024-01-18 has 8 days left on 2024-01-10 |
| Inkubator.ExampleHatched | src/pages/admin/InkubatorManager.js:152-153 | a batch due 2024-01-18 is hatching on 2024-01-20 |
| Telur.Refused | src/pages/admin/TelurManager.js:30 | no contract of its own: the refusal of a negative total or damaged count; `RefusedOfDecimal`, `NegativeGoodCountIsStored` and `UnreadableTotalIsStoredAsNull` state what it lets through |
| Telur.SumColumn | src/pages/admin/TelurManager.js:65-66 | no contract of its own: the `reduce` over a column with null as 0; `SumColumnOfConcat` and `SumColumnOfPermutation` state how it splits and that order does not matter |
| Telur.TotalTelur | src/pages/admin/TelurManager.js:65 | no contract of its own: the total fold; `SavedHarvestAddsToStats` states what a saved row adds |
| Telur.TotalRusak | src/pages/admin/TelurManager.js:66 | no contract of its own: the damaged fold; `SavedHarvestAddsToStats` states what a saved row adds |
| Telur.EstimasiPendapatan | src/pages/admin/TelurManager.js:67 | no contract of its own: the difference of the folds times 300; `RevenueCountsGoodEggs` makes it 300 per good egg |
| Telur.PreviewGood | src/pages/admin/TelurManager.js:112 | no contract of its own: the good-egg preview; `PreviewAgreesWithStoredRow` and `FreshFormPreviewsZero` relate it to the stored row and the fresh form |
| Telur.Difference | src/pages/admin/TelurManager.js:43 | the difference exists exactly when both counts do, and adds back to the total |
| Telur.StoredRow | src/pages/admin/TelurManager.js:39-44 | the stored row has the form's date and parsed counts; its good count is total − damaged exactly when both parse, otherwise `null` |
| Telur.HarvestQuestion | src/pages/admin/TelurManager.js:32-36 | the question titled 'Konfirmasi Panen' with the 'Simpan' button and the confirm style |
| Telur.HarvestMessage | src/pages/admin/TelurManager.js:33 | the message carries the total (or `NaN`) right after its fixed opening, and the damaged count (or `NaN`) right after the ' butir (' that follows the total |
| Telur.CountTextReadsBack | src/pages/admin/TelurManager.js:33 | a count written into the message reads back as itself |
| Telur.TelurManager.constructor | src/pages/admin/TelurManager.js:10-12 | the form starts with no total, '0' damaged and today's UTC date |
| Telur.TelurManager.Fill | src/pages/admin/TelurManager.js:86-104 | only the form changes |
| Telur.TelurManager.Submit | src/pages/admin/TelurManager.js:25-53 | a negative count raises the alert and changes nothing; no confirmation changes nothing; a failed insert shows its message; a successful one appends the stored row and resets the counts to '' and '0', keeping the date |
| Telur.RefusedOfDecimal | src/pages/admin/TelurManager.js:30 | counts written in decimal are refused exactly when one is negative |
| Telur.NegativeGoodCountIsStored | src/pages/admin/TelurManager.js:30-44 | more damaged eggs than eggs pass the check and are stored with a negative good count |
| Telur.UnreadableTotalIsStoredAsNull | src/pages/admin/TelurManager.js:27-43 | a total that is not a number passes the check and is stored as `null`, and so is the good count |
| Telur.PreviewAgreesWithStoredRow | src/pages/admin/TelurManager.js:112 | with both fields filled in, the preview shows the good count that is stored |
| Telur.FreshFormPreviewsZero | src/pages/admin/TelurManager.js:112 | the fresh form previews 0 good eggs |
| Telur.SumColumnOfConcat | src/pages/admin/TelurManager.js:65-66 | the totals split over a concatenation of lists |
| Telur.SumColumnOfPermutation | src/pages/admin/TelurManager.js:20 | the totals do not depend on the order the list is fetched in |
| Telur.RevenueCountsGoodEggs | src/pages/admin/TelurManager.js:67 | on rows whose good count is total − damaged, the estimate is Rp 300 per good egg |
| Telur.SavedHarvestAddsToStats | src/pages/admin/TelurManager.js:65-67 | a saved harvest raises the totals by its counts (`null` adds 0) and the estimate by Rp 300 per good egg |
| Dashboard.SumPuyuh | src/pages/admin/Dashboard.js:24 | no contract of its own: the `reduce` over `jumlah_puyuh`; `SumPuyuhOfConcat`, `OneCountChanged` and `RemovedRowLowersTotal` state how it responds to table changes |
| Dashboard.FetchStats | src/pages/admin/Dashboard.js:17-27 | no data keeps the statistics; otherwise the total is the sum of the head counts and the cage count the number of rows; the feed stock never changes |
| Dashboard.EmptyTableGivesZero | src/pages/admin/Dashboard.js:24 | no cages give no quail and no cages |
| Dashboard.SumPuyuhOfConcat | src/pages/admin/Dashboard.js:24 | the total splits over a concatenation |
| Dashboard.SumPuyuhIsNotNegative | src/pages/admin/Dashboard.js:24 | counts that are never negative give a total that is not negative |
| Dashboard.OneCountChanged | src/pages/admin/Dashboard.js:24 | changing one row's count changes the total by the difference |
| Dashboard.ReductionLowersTotal | src/pages/admin/Dashboard.js:24-25 | after an accepted reduction the total drops by exactly the amount and the cage count stays |
| Dashboard.AddedCageRaisesTotal | src/pages/admin/Dashboard.js:24-25 | a new cage adds its count and one cage |
| Dashboard.DeletedCageLowersTotal | src/pages/admin/Dashboard.js:24-25 | a deleted cage takes its count and one cage with it |
| Dashboard.RemovedRowLowersTotal | src/pages/admin/Dashboard.js:24 | taking out one row takes its count out of the total |

## Left out

- Backend reads: every list is the table itself. A failed or stale refetch is not modelled. The order of a refetch is, where the view relies on it: cages by id, batches by hatch date. Harvest rows are fetched newest first, and `SumColumnOfPermutation` shows the totals do not depend on that order.
- The population history's refetch (newest first, at most 50 rows) and its join with cage names: `ShowHistory` looks the name up in the cage list instead.
- Deleting a batch (`InkubatorManager` `handleDelete`) or a harvest row (`TelurManager` `handleDelete`): the rows' backend ids are not modelled, and either delete is one confirmed removal of one row.
- Asynchrony and concurrency: each handler runs to completion in one step. Racing reductions on the same cage are not modelled.
- Timers: the 3-second toast timer is the explicit `Expire` call.
- Time zones: the model assumes the browser runs in UTC or in a zone with a fixed offset and no daylight saving (such as WIB, UTC+7). `toISOString` and date-only parsing are UTC, but `getDate`/`setDate` in the hatch-date computation use local time. `toLocaleDateString` rendering is left out.
- Inkubator.HatchDate: in a zone whose clocks go forward during the 17 days, the source's `estimasi_menetas` comes out one day short (in America/New_York, intake 2024-03-01 gives 2024-03-17). `HatchDate` and `HatchDateIsSeventeenDaysLater` always give 17 days, which matches the source only under the zone assumption above.
- `new Date(text)` for forms other than `YYYY-MM-DD`: anything else is an Invalid Date in the model.
- The `RangeError` thrown by `toISOString` on an Invalid Date: the handler stops, modelled as `Payload` returning `None`.
- Floating point: `parseInt` is exact, beyond 2^53 too. Days remaining is computed on whole milliseconds.
- Kandang.IntColumn: the backend's integer coercion of form text is approximated. It accepts an optional minus sign followed by decimal digits and refuses anything else. Whitespace, a plus sign and range limits are not modelled.
- HTML input constraints (`required`, `min="1"`, `type="number"`): the model sees every string the handlers could receive.
- Styling, icons and animations, other than the style and colour choices that depend on data.
- Inkubator.IncubationExample: does not state the hatch text '2024-01-18' itself. `IsoDate.ParseOfFormat` and `IsoDate.FormatOfParse` relate a date to its text for every date.
