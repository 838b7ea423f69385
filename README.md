# Clinic management back end — a Dafny model

This project models the request-handling core of a clinic-management REST back end written in Go (gin). The back end runs in two modes.

- **Mock mode.** A `MockDataService` keeps users, customers, doctors, clinics, medicines, appointments, work schedules and medical records in memory. The mock schedule handlers create, update, delete, assign and reassign doctors' shifts through it and check shifts for time conflicts.
- **Database mode.** Handlers run SQL against the clinic database. The modelled handlers are:
  - work schedules: role-restricted create, update and delete, a conflict query, a filter built from query parameters;
  - clinics: free appointment slots of a doctor on a date, and the doctor list, which puts previously visited doctors first when the visits query returns rows (see "## Left out");
  - appointments: booking with a double-booking guard, update and cancel;
  - lab tests: ordering, result entry, deletion, the type list;
  - user profiles: profile read and update, password change;
  - authentication: login, registration, forgotten and reset passwords, user-type probing.

It also models the two helper packages:

- `utils`: the e-mail check, the six-digit reset code and the `<prefix>_<time>_<hex>` identifiers;
- `middleware`: bearer-token authentication, which fills the request context from the token's claims, and the role gate.

Modelling choices:

- **The mock service** is a Dafny `class` with one `seq` field per collection. Its methods update those fields in place.
- **The database** is a value `Db`, with one `seq` of rows per table.
  - A handler is a method taking a `Db` and returning the HTTP status and the new `Db`.
  - A rolled-back or refused request returns the database unchanged.
  - `UPDATE … WHERE key` affects every row holding the key. `QueryRow` reads the first matching row.
- **JSON request bodies** are maps from field names to `JStr`, `JNull` or any other JSON value.
  - A field tagged `binding:"required"` must be a non-empty string.
  - A nullable column receives `Text` or `Null`.
- **Outside dependencies are parameters.** Password hashing and checking, token validation, the clock, and the bytes read from `crypto/rand` all come from the caller. A hash that failed to compute is `None`.
- **Fixed-size integers do not matter here.** The reset code's arithmetic fits in 25 bits.

Module by module:

| module | models |
|---|---|
| `Common` | statuses, JSON values, SQL cells, role names, the binding rules |
| `Text` | `strings.Split`, `strconv.Itoa`/`Atoi`, `%0Nd` formatting, byte string order, UTF-8 length |
| `Clock` | `time.Parse` with `"15:04"` and `"2006-01-02"` |
| `Seqs` | first-match lookup, filtering, `UPDATE`/`DELETE` by key |
| `Store` | the tables |
| `MockData` | `internal/services/mock_data.go` |
| `MockScheduleHandlers` | `internal/handlers/mock_schedule.go` |
| `ScheduleHandlers` | `internal/handlers/schedule.go` |
| `ClinicHandlers` | `internal/handlers/clinic.go` |
| `AppointmentHandlers` | `internal/handlers/appointment.go` |
| `LabTestHandlers` | `internal/handlers/lab_test.go` |
| `UserHandlers` | `internal/handlers/user.go` |
| `AuthHandlers` | `internal/handlers/auth.go` |
| `Utils` | `internal/utils/utils.go` |
| `Middleware` | `internal/middleware/auth.go` |

Where the code departs from what its messages or comments evidently intend, the handlers are modelled as the code is written, and a corrected definition is stated beside them with its intended property proved; see "## Findings".

## Model

| member | source | states |
|---|---|---|
| Common.RequiredString | internal/models/models.go:181-214 | a `binding:"required"` string field binds exactly when it is present, a JSON string, and non-empty; the bound value is that string |
| Common.OptionalString | internal/models/models.go:186-205 | an optional string field fails to bind only when it holds a non-string, non-null value; absent or null binds as "" |
| Clock.ClockMinutes | internal/services/mock_data.go:521-528 | the minute of the day a valid "15:04" time denotes is below 24·60 |
| Clock.HHMMOrderAgrees | internal/services/mock_data.go:521-528 | for zero-padded HH:MM times, byte-string order is time order and string equality is equality of times |
| Clock.OneDigitHourMisordered | internal/handlers/mock_schedule.go:239-242 | the "15:04" layout accepts "9:00" and "10:00"; "9:00" is the earlier time, yet it compares greater as a string |
| Clock.DaysIn | internal/handlers/schedule.go:276-284 | a month has 28 to 31 days, and 29 exactly for February of a leap year |
| Clock.DateOrderAgrees | internal/handlers/schedule.go:276-284 | for "2006-01-02" dates, string order is calendar order, and equal strings are equal dates |
| Clock.DateFields | internal/handlers/schedule.go:276-284 | year, month and day are read from digits 0-3, 5-6 and 8-9 |
| Clock.LeapDayExamples | internal/handlers/schedule.go:276-284 | 2024-02-29 and 2000-02-29 parse; 2023-02-29 and 1900-02-29 do not |
| MockData.BackToBackShiftsDoNotOverlap | internal/services/mock_data.go:521-528 | a shift ending when another starts does not overlap it, in either order |
| MockData.TimeOverlapsIsSharedMinute | internal/services/mock_data.go:521-528 | for proper HH:MM shifts, timeOverlaps holds exactly when some minute lies in both half-open intervals |
| MockData.InactiveShiftsIgnored | internal/services/mock_data.go:508-518 | a shift that is not ACTIVE never changes the conflict verdict |
| MockData.ScheduleIdInjective | internal/services/mock_data.go:424-428 | "SCH%03d" gives distinct identifiers to distinct numbers |
| MockData.ScheduleIdExamples | internal/services/mock_data.go:424-428 | numbers 1, 2 and 1000 give "SCH001", "SCH002" and "SCH1000" |
| MockData.FilteredSchedules | internal/services/mock_data.go:391-413 | a shift is kept exactly when every non-empty filter matches it |
| MockData.NoFilterKeepsAll | internal/services/mock_data.go:391-413 | with all three filters empty, every shift is returned, in order |
| MockData.Patched | internal/services/mock_data.go:442-467 | patching keeps the identifier; a patch with no fields changes nothing |
| MockData.DoctorsByClinic | internal/services/mock_data.go:255-268 | only known doctors are listed, at most one per shift |
| MockData.DoctorsByClinicMembers | internal/services/mock_data.go:255-268 | a doctor is listed exactly when the doctor is known and has a shift at the clinic |
| MockData.DoctorsByClinicRepeats | internal/services/mock_data.go:255-268 | a doctor with two shifts at one clinic is listed twice |
| MockData.MockDataService.constructor | internal/services/mock_data.go:137-147 | the service holds the given collections |
| MockData.MockDataService.GetUserByUsername | internal/services/mock_data.go:205-212 | the first user with the username, or not found |
| MockData.MockDataService.GetUserByID | internal/services/mock_data.go:214-221 | the first user with the identifier, or not found |
| MockData.MockDataService.GetCustomerByUserID | internal/services/mock_data.go:228-235 | the first customer of the user, or not found |
| MockData.MockDataService.GetDoctorByUserID | internal/services/mock_data.go:242-249 | the first doctor of the user, or not found |
| MockData.MockDataService.GetClinicByID | internal/services/mock_data.go:271-278 | the first clinic with the identifier, or not found |
| MockData.MockDataService.GetAppointmentByID | internal/services/mock_data.go:305-312 | the first appointment with the identifier, or not found |
| MockData.MockDataService.GetMedicalRecordByID | internal/services/mock_data.go:350-357 | the first medical record with the identifier, or not found |
| MockData.MockDataService.GetMedicineByID | internal/services/mock_data.go:364-371 | the first medicine with the identifier, or not found |
| MockData.MockDataService.GetScheduleByID | internal/services/mock_data.go:415-422 | the first shift with the identifier, or not found |
| MockData.MockDataService.GetAppointmentsByCustomer | internal/services/mock_data.go:285-293 | the customer's appointments, in stored order |
| MockData.MockDataService.GetAppointmentsByDoctor | internal/services/mock_data.go:295-303 | the doctor's appointments, in stored order |
| MockData.MockDataService.GetSchedulesByDoctor | internal/services/mock_data.go:319-327 | the doctor's shifts, in stored order |
| MockData.MockDataService.GetSchedulesByClinic | internal/services/mock_data.go:329-337 | the clinic's shifts, in stored order |
| MockData.MockDataService.GetMedicalRecordsByCustomer | internal/services/mock_data.go:340-348 | the customer's records, in stored order |
| MockData.MockDataService.GetDoctorsByClinic | internal/services/mock_data.go:255-268 | the doctors of the clinic's shifts, one entry per shift |
| MockData.MockDataService.GetFilteredSchedules | internal/services/mock_data.go:391-413 | the shifts matching every non-empty filter |
| MockData.MockDataService.HasScheduleConflict | internal/services/mock_data.go:508-518 | true exactly when an ACTIVE shift of the doctor on the date overlaps the given times |
| MockData.MockDataService.CreateSchedule | internal/services/mock_data.go:424-440 | appends an ACTIVE shift numbered one past the current count, and returns it |
| MockData.MockDataService.UpdateSchedule | internal/services/mock_data.go:442-467 | the first shift with the identifier is replaced by its patch, and nothing else changes; an unknown identifier changes nothing |
| MockData.MockDataService.DeleteSchedule | internal/services/mock_data.go:469-478 | only the first shift with the identifier is removed; an unknown identifier changes nothing |
| MockData.MockDataService.AssignDoctorToSchedule | internal/services/mock_data.go:480-496 | the first shift with the same clinic, date and times gets the doctor; with none, a new shift is appended |
| MockData.MockDataService.ReassignDoctor | internal/services/mock_data.go:498-506 | the first shift with the identifier gets the new doctor, and nothing else changes |
| MockScheduleHandlers.AppendWithoutConflictKeepsApart | internal/handlers/mock_schedule.go:85-96 | appending a shift that conflicts with no ACTIVE shift keeps every doctor's ACTIVE shifts on a date pairwise disjoint |
| MockScheduleHandlers.OneDigitHourEscapesConflict | internal/handlers/mock_schedule.go:85-96 | a 9:00-10:00 request passes the "15:04" check and the conflict test against a stored 09:00-11:00 shift of the same doctor, though both cover minute 540 |
| MockScheduleHandlers.AssignCanDoubleBook | internal/handlers/mock_schedule.go:162-194 | assignment checks no conflict: a doctor can get two overlapping ACTIVE shifts at two clinics |
| MockScheduleHandlers.GetSchedules | internal/handlers/mock_schedule.go:50-63 | 200 with the filtered shifts |
| MockScheduleHandlers.CreateSchedule | internal/handlers/mock_schedule.go:66-104 | 400 when incomplete or when a time does not parse with "15:04" (a one-digit hour such as "9:00" parses); 404 for an unknown doctor or clinic; 409 exactly on a conflict by the string overlap test; otherwise the new shift is appended, and ACTIVE shifts stay apart under that test |
| MockScheduleHandlers.GetSchedule | internal/handlers/mock_schedule.go:107-117 | 404 exactly when no shift has the identifier, else 200 with the first |
| MockScheduleHandlers.UpdateSchedule | internal/handlers/mock_schedule.go:120-146 | 400 with no change when a given time does not parse with "15:04"; otherwise 500 with no change for an unknown shift, or the first matching shift replaced by its patch |
| MockScheduleHandlers.DeleteSchedule | internal/handlers/mock_schedule.go:149-159 | 500 with no change for an unknown identifier; otherwise the first matching shift is removed |
| MockScheduleHandlers.AssignDoctor | internal/handlers/mock_schedule.go:162-194 | 400 when incomplete or when a time does not parse with "15:04" (one-digit hours included); 404 exactly for an unknown doctor or clinic; otherwise the matching slot is reassigned or appended |
| MockScheduleHandlers.GetDoctorSchedules | internal/handlers/mock_schedule.go:197-208 | 404 for an unknown doctor, else the doctor's shifts |
| MockScheduleHandlers.ReassignDoctor | internal/handlers/mock_schedule.go:211-236 | 400 without a doctor and 404 for an unknown doctor, both with no change; 500 with no change for an unknown shift; otherwise the shift's doctor is replaced |
| MockScheduleHandlers.CheckConflicts | internal/handlers/mock_schedule.go:245-270 | 400 exactly when a parameter is empty; otherwise 200 with the service's conflict verdict |
| ScheduleHandlers.CreatePolicyByRole | internal/handlers/schedule.go:258-273 | a doctor may create only their own shifts; both managers may create any shift; every other role may create none |
| ScheduleHandlers.DoctorNeverMayModifyAsWritten | internal/handlers/schedule.go:389-412 | the written permission chain refuses every doctor, including the shift's own doctor |
| ScheduleHandlers.MayModifyCorrectsOnlyOwner | internal/handlers/schedule.go:389-412 | the corrected permission differs from the written one exactly for a doctor acting on their own shift |
| ScheduleHandlers.SqlConflictMissesContainment | internal/handlers/schedule.go:296-301 | the written SQL test is sound; it misses exactly a new shift that starts before and ends after an existing one |
| ScheduleHandlers.ContainingShiftSlipsThrough | internal/handlers/schedule.go:296-301 | 09:00-12:00 overlaps a stored 10:00-11:00 shift, yet the written test reports no conflict |
| ScheduleHandlers.InsertWithoutConflictKeepsApart | internal/handlers/schedule.go:296-330 | inserting a shift the corrected test clears keeps every doctor's shifts on a date pairwise disjoint |
| ScheduleHandlers.WrittenTestBreaksNoOverlaps | internal/handlers/schedule.go:296-330 | with the written test, an insert can break that disjointness |
| ScheduleHandlers.StatusOrDefault | internal/handlers/schedule.go:321-323 | an empty status becomes AVAILABLE; any other status is kept |
| ScheduleHandlers.CreateSchedule | internal/handlers/schedule.go:243-350 | 400 when incomplete, 403 when not permitted, 400 for a bad date or a time that does not parse with "15:04"; 409 exactly when the SQL conflict clause as written finds a row; 201 exactly otherwise, appending the shift |
| ScheduleHandlers.CountConflicts | internal/handlers/schedule.go:296-318 | the counted rows are positive exactly when some row meets the conflict clause as written |
| ScheduleHandlers.FindShift | internal/handlers/schedule.go:367-386 | the first shift with the identifier, or none exactly when no shift has it |
| ScheduleHandlers.PatchedShift | internal/handlers/schedule.go:414-490 | a patch keeps the shift's identifier and doctor |
| ScheduleHandlers.PatchKeepsWellFormed | internal/handlers/schedule.go:440-490 | an accepted patch of a shift with a valid date and "15:04" times leaves a valid date and "15:04" times |
| ScheduleHandlers.UpdateColumn | internal/handlers/schedule.go:426-490 | one `UPDATE … WHERE id` sets the column on every row with the identifier and changes no other row |
| ScheduleHandlers.PatchedUpTo | internal/handlers/schedule.go:426-490 | the statement-by-statement patch keeps the identifier |
| ScheduleHandlers.PatchedUpToAll | internal/handlers/schedule.go:426-490 | the five statements together give the whole patch |
| ScheduleHandlers.ApplyPatch | internal/handlers/schedule.go:414-524 | the transaction succeeds exactly when every given field is acceptable (a valid date, times that parse with "15:04", a known status), and then patches exactly the rows with the identifier |
| ScheduleHandlers.CheckModify | internal/handlers/schedule.go:367-412 | 404 for an unknown shift, 500 for a shift with no clinic; OK exactly when the permission chain as written holds, which refuses every doctor; 403 otherwise |
| ScheduleHandlers.UpdateSchedule | internal/handlers/schedule.go:352-537 | 404, 500 or 403 before any change, and 403 for every doctor, the shift's own included; 400 for a permitted caller whose patch is refused; OK exactly when the written chain permits and the patch is acceptable; OK patches exactly the matching rows, anything else changes nothing |
| ScheduleHandlers.DeleteGuardIgnoresDate | internal/handlers/schedule.go:592-597 | a scheduled appointment with the doctor on any date blocks deleting the shift |
| ScheduleHandlers.DeleteSchedule | internal/handlers/schedule.go:539-631 | 404, 500 or 403 as for update, so every doctor is refused; 409 exactly when an open appointment holds the shift; OK removes every row with the identifier |
| ScheduleHandlers.CountHolding | internal/handlers/schedule.go:592-597 | the count is positive exactly when the delete guard blocks |
| ScheduleHandlers.AppendCondition | internal/handlers/schedule.go:91-109 | adding a numbered condition narrows the filter by exactly that condition |
| ScheduleHandlers.Narrow | internal/handlers/schedule.go:91-109 | keeps the placeholders numbered; a row passes the new filter exactly when it passes the old one and, if active, the new condition |
| ScheduleHandlers.BuildScheduleFilter | internal/handlers/schedule.go:44-162 | 500 for a manager with no clinic; otherwise the placeholders are numbered 1..n, and a row passes exactly when it is visible to the role and matches every given parameter |
| ClinicHandlers.ParseTime | internal/handlers/clinic.go:379-400 | a time without ':' defaults to 9:00 |
| ClinicHandlers.ParseTimeFields | internal/handlers/clinic.go:392-397 | "HH:MM" and "HH:MM:SS" give the two leading numbers, with non-numbers read as 0 |
| ClinicHandlers.ParseTimeOfDateTime | internal/handlers/clinic.go:379-390 | a date-time "dTtZ" parses as its time part t |
| ClinicHandlers.ParseTimeLabel | internal/handlers/clinic.go:349-376 | a slot label "%02d:00" parses back to its hour |
| ClinicHandlers.TimeLabelLength | internal/handlers/clinic.go:349-376 | labels of hours 0-99 have five characters |
| ClinicHandlers.TimeLabelInjective | internal/handlers/clinic.go:349-376 | distinct hours give distinct labels |
| ClinicHandlers.Slots | internal/handlers/clinic.go:349-376 | no slots for an empty range; at most one per hour |
| ClinicHandlers.SlotsMembers | internal/handlers/clinic.go:349-376 | a label is offered exactly when it is an hour of the range and not booked |
| ClinicHandlers.SlotsHours | internal/handlers/clinic.go:349-376 | every offered slot is a whole hour inside the range |
| ClinicHandlers.SlotsAscending | internal/handlers/clinic.go:349-376 | the slots are in strictly increasing hour order |
| ClinicHandlers.BookedMap | internal/handlers/clinic.go:351-355 | the lookup map holds true exactly for the booked times |
| ClinicHandlers.GenerateTimeSlots | internal/handlers/clinic.go:349-376 | the loop yields the free whole hours from the start hour to before the end hour |
| ClinicHandlers.StartMinutesIgnored | internal/handlers/clinic.go:349-376 | a shift from 08:30 to 12:00 offers the same slots as one from 08:00: the start minutes are dropped |
| ClinicHandlers.BookedTimes | internal/handlers/clinic.go:315-325 | the booked times are the "HH:MM" cut from characters 11-16 of long enough date-times |
| ClinicHandlers.ExtractBookedTimes | internal/handlers/clinic.go:315-325 | the row loop computes those booked times |
| ClinicHandlers.BookedHourNotOffered | internal/handlers/clinic.go:315-376 | an appointment at "dateTHH:00:00Z" removes HH:00 from the offered slots |
| ClinicHandlers.WorkShift | internal/handlers/clinic.go:264-274 | the first AVAILABLE shift of the doctor on the date; none exactly when there is none |
| ClinicHandlers.BookedCells | internal/handlers/clinic.go:296-301 | the booked date-times are those of the doctor's non-cancelled, non-no-show appointments on the date |
| ClinicHandlers.GetSchedules | internal/handlers/clinic.go:241-346 | 400 exactly when a parameter is missing; no shift gives no slots; otherwise the free hours of the shift |
| ClinicHandlers.WasPreviouslyVisited | internal/handlers/clinic.go:153-161 | true exactly when the doctor is in the previous-visit list |
| ClinicHandlers.GroupMembers | internal/handlers/clinic.go:183-188 | the visited group holds exactly the listed doctors the caller saw before, the other group exactly the rest |
| ClinicHandlers.PartitionIsPermutation | internal/handlers/clinic.go:183-191 | visited followed by others is a permutation of the doctor list |
| ClinicHandlers.NoVisitsKeepsOrder | internal/handlers/clinic.go:183-191 | with no previous visits, the order is unchanged |
| ClinicHandlers.PartitionDoctors | internal/handlers/clinic.go:167-191 | the loop splits into visited and other doctors and returns visited first, a permutation of the input |
| ClinicHandlers.GetDoctors | internal/handlers/clinic.go:94-204 | for a customer, the doctors named by the visits query's rows come first; for anyone else, the order is kept; always a permutation |
| AppointmentHandlers.CountTaken | internal/handlers/appointment.go:199-221 | the count is positive exactly when an open appointment holds the doctor's slot |
| AppointmentHandlers.NewAppointment | internal/handlers/appointment.go:223-228 | a new booking belongs to the caller and is SCHEDULED, an open status |
| AppointmentHandlers.BookingKeepsNoDoubleBooking | internal/handlers/appointment.go:199-228 | adding a booking to a free slot keeps each doctor's open slots distinct |
| AppointmentHandlers.CreateAppointment | internal/handlers/appointment.go:146-246 | 400 for missing fields, 403 for a non-customer, 409 exactly when the slot is taken, 201 appends the booking; double booking stays impossible |
| AppointmentHandlers.FindAppointment | internal/handlers/appointment.go:333-352 | the first appointment with the identifier, or none exactly when there is none |
| AppointmentHandlers.PatchedAppointment | internal/handlers/appointment.go:381-415 | a patch keeps the parties and the clinic; an empty patch changes nothing |
| AppointmentHandlers.UpdateAppointment | internal/handlers/appointment.go:319-430 | 404 for an unknown appointment; 403 exactly for a customer who does not own it or a doctor not assigned to it, other roles passing; OK patches exactly the rows with the identifier |
| AppointmentHandlers.UpdateReopensCancelled | internal/handlers/appointment.go:393-403 | an update can set a cancelled appointment back to SCHEDULED |
| AppointmentHandlers.UpdateCanDoubleBook | internal/handlers/appointment.go:381-391 | an update can move an appointment onto a slot already taken |
| AppointmentHandlers.CancelAppointment | internal/handlers/appointment.go:432-478 | 404 for an unknown appointment, 403 exactly for a customer who does not own it; OK cancels every matching row, and double booking stays impossible |
| AppointmentHandlers.CancelKeepsNoDoubleBooking | internal/handlers/appointment.go:455-464 | cancelling never creates a double booking |
| LabTestHandlers.DerivedStatus | internal/handlers/lab_test.go:113-118 | "completed" exactly with a result; "processing" exactly with a past test date; "ordered" otherwise |
| LabTestHandlers.StatusNeverRegresses | internal/handlers/lab_test.go:201-206 | as time passes, the derived status never moves back |
| LabTestHandlers.BindLabTest | internal/handlers/lab_test.go:22-27 | the order binds exactly when the required fields are strings; it carries the record and the date given |
| LabTestHandlers.OrderDate | internal/handlers/lab_test.go:282-297 | no date means now; a date that does not parse is refused |
| LabTestHandlers.NewLabTest | internal/handlers/lab_test.go:299-303 | a new order has no result and belongs to the record |
| LabTestHandlers.NewOrderStatus | internal/handlers/lab_test.go:113-118 | a new order reads "ordered" when made and "processing" afterwards |
| LabTestHandlers.CreateLabOrder | internal/handlers/lab_test.go:229-321 | 403 for a non-doctor, 400 for a bad body, 404 for an unknown record, 403 for a doctor who does not own the record, 400 for a date that does not parse; 201 exactly otherwise, appending the order |
| LabTestHandlers.OwnerRecord | internal/handlers/lab_test.go:338-361 | the record owning the test, or none exactly when no record owns it |
| LabTestHandlers.PatchedFields | internal/handlers/lab_test.go:384-418 | a patch keeps the identifier, the record and the date |
| LabTestHandlers.PatchedLabTest | internal/handlers/lab_test.go:384-441 | a given result is stored; a patch with no known field changes nothing |
| LabTestHandlers.UpdateLabTest | internal/handlers/lab_test.go:323-457 | 404 for an unknown test, 403 exactly when a doctor is not the record's doctor; 400 for a permitted caller whose date does not parse; OK exactly when permitted and any date parses, patching exactly the rows with the identifier |
| LabTestHandlers.DeleteLabTest | internal/handlers/lab_test.go:459-520 | 403 for a non-doctor, 404 for an unknown test, 403 for a doctor who does not own the record; OK exactly for the record's own doctor, removing every row with the identifier |
| LabTestHandlers.TextValues | internal/handlers/lab_test.go:542-556 | exactly the non-null type names |
| LabTestHandlers.GetLabTestTypes | internal/handlers/lab_test.go:523-580 | the stored names, or the default list when there are none; never empty |
| UserHandlers.FindUser | internal/handlers/user.go:46-70 | the first user with the identifier, or none exactly when there is none |
| UserHandlers.GetProfile | internal/handlers/user.go:21-236 | 400 exactly for an unknown user type; 404 exactly when the user or the role row is missing, or the stored name is NULL and cannot be scanned; OK returns the user without the password |
| UserHandlers.EmailCheck | internal/handlers/user.go:259-279 | the e-mail passes exactly when absent, empty, or a valid address no other user holds; otherwise 400 or 409 |
| UserHandlers.PatchedUser | internal/handlers/user.go:292-340 | name, phone and e-mail take the given values, with "" stored as NULL except for the name; the other columns are kept |
| UserHandlers.PatchedCustomer | internal/handlers/user.go:368-422 | the four customer columns take the given values, with "" stored as NULL |
| UserHandlers.UpdateWhereTwice | internal/handlers/user.go:292-340 | two successive `UPDATE … WHERE id` statements compose |
| UserHandlers.EmailWriteKeepsUnique | internal/handlers/user.go:259-340 | writing an e-mail that passed the check keeps e-mails unique |
| UserHandlers.UpdateProfile | internal/handlers/user.go:238-366 | 400 for an empty body; the e-mail check's status when it fails; OK exactly otherwise, patching the user, and the customer row only for customers; e-mails stay unique |
| UserHandlers.PatchUserRows | internal/handlers/user.go:292-340 | every row of the caller is rewritten to the patched user, every other row is kept, and unique e-mails stay unique |
| UserHandlers.PasswordRequestCheck | internal/handlers/user.go:426-463 | passes exactly when both passwords are given, the new one has at least 6 bytes, and it differs from the old one |
| UserHandlers.WithPassword | internal/handlers/user.go:502 | exactly the rows of the user get the new hash |
| UserHandlers.ChangePassword | internal/handlers/user.go:424-516 | 400 for a bad request, 404 for an unknown user, 403 exactly for an inactive user, 400 for a wrong current password, 500 for a failed hash; OK exactly otherwise, storing the new hash |
| UserHandlers.ChangePasswordTouchesOnlyCaller | internal/handlers/user.go:502 | other users are untouched, only the password changes, and e-mails stay unique |
| AuthHandlers.ActiveUserNamed | internal/handlers/auth.go:43-58 | the first ACTIVE user with the username; none exactly when there is none |
| AuthHandlers.Login | internal/handlers/auth.go:23-99 | 400 exactly for a missing field; 401 exactly for no active user, an active user whose NULL name cannot be scanned, or a wrong password; OK issues the claims and both token validities, and returns the user without the password |
| AuthHandlers.LoginDoesNotRevealAccounts | internal/handlers/auth.go:43-66 | an unknown username and a wrong password both fail in the same way |
| AuthHandlers.BindRegistration | internal/handlers/auth.go:101-118 | binds exactly when name, username and password are non-empty strings and the optional fields are strings or absent |
| AuthHandlers.NullIfEmpty | internal/handlers/auth.go:171-177 | an empty optional value is stored as NULL |
| AuthHandlers.NewCustomerUser | internal/handlers/auth.go:179-182 | the new user is an ACTIVE CUSTOMER with the hashed password and the given fields |
| AuthHandlers.AppendKeepsUnique | internal/handlers/auth.go:129-150 | adding a user whose username and e-mail are free keeps both unique |
| AuthHandlers.Register | internal/handlers/auth.go:101-226 | 400 for a bad body or e-mail; 409 exactly for a taken username or e-mail; 500 for a failed hash; 201 exactly otherwise, adding the user and an empty customer row; uniqueness kept |
| AuthHandlers.ActiveUserWithEmail | internal/handlers/auth.go:256-266 | the first ACTIVE user with the e-mail; none exactly when there is none |
| AuthHandlers.ForgotPassword | internal/handlers/auth.go:228-326 | 400 exactly for a missing or invalid e-mail; an unknown e-mail, or a user whose NULL name cannot be scanned, succeeds silently with no code and no change; otherwise a code is issued, older live codes are used up, and the new code is the only live one |
| AuthHandlers.ResetRequestCheck | internal/handlers/auth.go:330-362 | passes exactly when all fields are given, the e-mail is valid, and the new password has at least 6 bytes |
| AuthHandlers.ResetPassword | internal/handlers/auth.go:328-438 | 400 exactly for a failed request check or when no redeemable code matches; 500 for a failed hash; OK otherwise, storing the new hash for the code's user and using up the code; anything but OK changes nothing |
| AuthHandlers.RefreshToken | internal/handlers/auth.go:440-445 | always 501, with no change |
| AuthHandlers.FirstRoleHeld | internal/handlers/auth.go:447-481 | the result is UNKNOWN or a probed role the user holds |
| AuthHandlers.GetUserType | internal/handlers/auth.go:447-481 | the probing loop returns the first role in probe order that the user holds |
| AuthHandlers.UserTypePrecedence | internal/handlers/auth.go:447-481 | UNKNOWN exactly when the user holds no role; otherwise an earlier-probed role wins |
| Utils.ValidateEmailPermissive | internal/utils/utils.go:67-69 | the check accepts ".@" and "@.", and rejects any text without one of the two characters |
| Utils.ResetCodeShape | internal/utils/utils.go:79-89 | every reset code is six digits that read back as the bytes' value modulo 10^6 |
| Utils.ResetCodeCollision | internal/utils/utils.go:79-89 | two different byte triples can give the same code |
| Utils.BigEndianThree | internal/utils/utils.go:83-86 | three bytes read as b0·65536 + b1·256 + b2 |
| Utils.AccumulateBytes | internal/utils/utils.go:83-86 | the loop computes the big-endian value of the bytes |
| Utils.GenerateResetCode | internal/utils/utils.go:79-89 | the code is six digits whose value is (b0·65536 + b1·256 + b2) mod 10^6 |
| Utils.HexEncode | internal/utils/utils.go:27 | two lower-case hex digits per byte |
| Utils.HexRoundTrip | internal/utils/utils.go:27 | decoding the hex gives the bytes back |
| Utils.GenerateIDFields | internal/utils/utils.go:23-29 | an identifier splits on '_' into the prefix, a timestamp that reads back, and 8 hex digits that decode to the bytes |
| Utils.GenerateIDInjective | internal/utils/utils.go:23-29 | with one prefix, equal identifiers have equal timestamps and bytes |
| Utils.Prefix | internal/utils/utils.go:31-65 | every kind's prefix is three characters without '_' |
| Utils.KindsNeverCollide | internal/utils/utils.go:31-93 | identifiers of two different kinds never coincide |
| Middleware.AccessTokenValidity | internal/middleware/auth.go:21-34 | an access token expires 86400 seconds after issue |
| Middleware.RefreshTokenValidity | internal/middleware/auth.go:36-45 | a refresh token expires 604800 seconds after issue |
| Middleware.AccessTokenWindow | internal/middleware/auth.go:21-74 | an access token signed at time t authenticates its claims exactly from t to before t + 86400 seconds |
| Middleware.RefreshTokenWindow | internal/middleware/auth.go:36-74 | a refresh token, which carries no user claims, authenticates as the empty user exactly from issue to before 604800 seconds later, also after an access token would have expired |
| Middleware.BearerToken | internal/middleware/auth.go:56-61 | an extracted token never holds a space |
| Middleware.BearerTokenExactly | internal/middleware/auth.go:56-61 | a header yields token t exactly when it is "Bearer " followed by t, and t has no space |
| Middleware.MalformedHeaders | internal/middleware/auth.go:49-61 | an empty header, another scheme, or a double space yields no token |
| Middleware.WithClaims | internal/middleware/auth.go:76-78 | the three claim keys are set, and every other context entry is kept |
| Middleware.AuthMiddleware | internal/middleware/auth.go:47-81 | aborts with 401 unless the header is "Bearer <token>", the token decodes under the secret, and its issue and expiry times admit the current time; then passes on the context with the token's claims set |
| Middleware.RequireRole | internal/middleware/auth.go:83-103 | passes exactly when the context's "role" is one of the roles, with the context unchanged; otherwise 403 |
| Middleware.GateRefusesAuthenticatedCallers | internal/middleware/auth.go:76-93 | authentication stores the role under "user_type" and the gate reads "role", so behind authentication alone every caller is refused |

## Left out

- SQL execution, transactions and driver errors. Every `500` caused by a failed query, scan, commit or transaction start is left out. The only 500s modelled come from data: a shift with no clinic, a manager with no clinic, a failed hash.
- AuthHandlers.GetUserType, UserHandlers.EmailCheck and the other handlers whose queries use `?` placeholders are modelled as if `?` were bound. The database is opened with the go-mssqldb driver under the name "sqlserver" (internal/database/database.go:13), which binds only `@p1`/`@Name` parameters and passes `?` to SQL Server, where it is a syntax error. Such queries are in all of user.go, in the lab_test.go lookups and writes, and in schedule.go and auth.go. Most of these failures become the 500s left out above. Six become another answer. getUserType ignores each failed scan, so it answers "UNKNOWN" for everyone; no handler calls it, and the login takes the role from the user row. The e-mail check takes the query error as "not taken", so it never answers 409. UserHandlers.GetProfile answers 404 to every request, because its lookups report any query error as 404 (user.go:56-69 and the other role branches). UserHandlers.ChangePassword answers 404 to every request (user.go:467-474). AuthHandlers.ForgotPassword answers the generic 200 and never issues a code (auth.go:256-266). AuthHandlers.ResetPassword answers 400 to every request (auth.go:364-382). The model states the handlers' logic, not these driver failures.
- ClinicHandlers.GetDoctors: the visits query at internal/handlers/clinic.go:106-110 is `SELECT DISTINCT … ORDER BY MAX(l.ngayGioKham) DESC` with no GROUP BY. SQL Server rejects it, and clinic.go:113 drops the error, so as written the visit list is always empty and the doctors keep the main query's order (ClinicHandlers.NoVisitsKeepsOrder). The model takes the visit rows as a parameter. It states the ordering a working query would give, which the program as written never shows.
- SQL text comparison is modelled as exact string equality. The database collation (case or accent folding) is not modelled.
- bcrypt hashing and checking are parameters. So are JWT signing and validation, the clock (`time.Now`, `UnixNano`) and the bytes from `crypto/rand`. `time.Parse` of full date-times is not modelled.
- HTTP and gin plumbing is not modelled: response bodies and messages, and reading the query and path. `ShouldBindJSON` is modelled only through the binding rules for string fields.
- Concurrency is not modelled. Each handler runs alone.
- Middleware.RequireRole: the context is a string map. The source's type assertion on a non-string role value, which would panic, is not modelled.
- Middleware.AuthMiddleware: the router constructs it without the signing secret. Signature checking under the secret is the `decode` parameter, and the current time is the `now` parameter; the registered-claims time check (issued no later than now, now before expiry) is modelled.
- MockData.MockDataService.constructor: loading the JSON fixture files (`loadAllData`, `loadJSONData`) is not modelled. The service is built from the loaded collections.
- `GetAllUsers`, `GetAllCustomers`, `GetAllDoctors`, `GetAllClinics`, `GetAllAppointments`, `GetAllMedicalRecords`, `GetAllMedicines` and `SearchMedicines` are not modelled. They return a whole collection, or match a keyword case-insensitively, which would need Unicode case folding.
- AuthHandlers.Login, LabTestHandlers.CreateLabOrder and ScheduleHandlers.CreateSchedule rely on code that the source does not define. `models.User` (internal/models/models.go:7-17) has no `Role` field, yet the login scans one (auth.go:49) and signs it into the token (auth.go:68); the model assumes the user row has a role column. `utils.GenerateLabTestID` (called at lab_test.go:280) and `utils.GenerateScheduleID` (called at schedule.go:326) do not exist in utils.go, and neither does `utils.InitializeCounters` (called at internal/database/database.go:21); the model takes each fresh identifier as the `newId` parameter.
- AuthHandlers.Register: the source's call to generate the user identifier does not match the helper's signature. The new identifier is a parameter.
- AuthHandlers.ForgotPassword: sending the code by e-mail is not modelled. The code is returned to the caller of the model.
- UserHandlers.GetProfile: returns the user row only. The role-specific columns joined from the role tables are not modelled. Neither is the missing `LanDangNhapCuoi` column handling.
- The read-only listing handlers are not modelled: `GetAppointments`, `GetAppointment`, `GetSchedule`, `GetLabTests`, `GetLabTest`, `GetClinics`, `GetClinic` and `GetSpecialties`. They only select and format rows.
- ScheduleHandlers.BuildScheduleFilter: only the WHERE clause is modelled, with its numbered placeholders. Joins and ordering are not.
- ClinicHandlers.ParseTime: `strconv.Atoi` is modelled on decimal digits with an optional '+' or '-' sign, on unbounded integers. Its range error on values beyond 64 bits is not modelled.
- AppointmentHandlers.CreateAppointment, AppointmentHandlers.CountTaken, ClinicHandlers.BookedCells and ClinicHandlers.TakesSlot compare appointment date-times as text. The database compares DATETIME values after converting the parameter, so two spellings of one instant ("2025-08-30 10:00:00" and "2025-08-30T10:00:00") are one slot there and two slots in the model.
- ScheduleHandlers.CreateSchedule and ScheduleHandlers.CountConflicts compare shift times as text. The database compares its TIME columns with the converted parameters. The two agree on zero-padded "HH:MM" (Clock.HHMMOrderAgrees), not on a one-digit hour such as "9:00", which the "15:04" check lets through.
- UserHandlers.UpdateProfile: an explicit `"ho_ten": null` stores a NULL name, which later makes login, the forgotten-password flow and the profile read fail their scan. Whether the schema forbids a NULL name, which would make that update a 500 instead, is not part of the model.
- Utils.GenerateResetCode: Go's `int` never overflows here, because three bytes give at most 2^24 − 1.
- Column names differ between handlers: the login uses `userID`, `username`, `password`, `status`, while the profile and password handlers use `MaUser`, `TenDangNhap`, `MatKhau`, `TrangThai`. The model maps both onto one user row.

## Findings

| source | as written | input that shows it | evidently intended | confidence | as-written member | corrected member |
|---|---|---|---|---|---|---|
| internal/handlers/schedule.go:389-412 | the permission chain is `if DOCTOR && not own … else if CLINIC_MANAGER … else if not OPERATION_MANAGER → 403`, so a doctor editing their own shift falls through to the last branch (the same at 566-589 for delete) | a DOCTOR updating or deleting a shift whose doctor is the caller | the shift's own doctor may modify it | high; not executed | ScheduleHandlers.UpdateSchedule | ScheduleHandlers.MayModifyCorrectsOnlyOwner |
| internal/handlers/schedule.go:296-301 | a conflict is `(start <= new start < end) or (start < new end <= end)`, which misses a new shift that strictly contains an existing one | stored 10:00-11:00, new 09:00-12:00 on the same date | any overlap of the two intervals is a conflict | high; not executed | ScheduleHandlers.CreateSchedule | ScheduleHandlers.InsertWithoutConflictKeepsApart |
| internal/handlers/mock_schedule.go:239-242 | `time.Parse("15:04", …)` accepts a one-digit hour, while the overlap test compares times as strings | "9:00" and "10:00": "10:00" < "9:00" as strings | times are zero-padded "HH:MM", as the error messages say | medium; not executed | MockScheduleHandlers.OneDigitHourEscapesConflict | Clock.HHMMOrderAgrees |
