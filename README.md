# Clinic appointment front end, modelled in Dafny

This project models the logic of a clinic's appointment web front end
(a React application). Patients book appointments through a three-stage
wizard, list, cancel and reschedule them, and read their medical history.
Doctors triage pending requests, browse their appointments with a Done /
Upcoming timing column, see dashboards of counts and diagnoses, and keep
their patients' medical records. Three sign-in forms sit in front of it:
registration, sign-in and password recovery.

Each page component becomes one Dafny module. The component's state
variables become the fields of a class, and its event handlers become the
class's methods. The lists a page derives from its state (filtered, sorted,
paged) become functions, with lemmas about them. The modules are:

- `Common`: the account, appointment and history records; `filter`/`find`
  over sequences; the lower-cased substring search; the order on
  `"YYYY-MM-DD"` dates.
- `Sorting`: the date sort of the history, triage, dashboard and patient-record
  lists (the schedule and status lists are shown in stored order).
- `Paging`: page counts, page slices and page moves.
- `CreateAppointment`: the slot catalogue and the holidays; the wizard's
  Next, Back and Submit; the ordered rule chain (past date, holiday, five
  bookings that day, time taken).
- `AppointmentList`: the doctor's triage.
- `AppointmentSchedule`: the patient's appointments, with cancel and
  reschedule.
- `AppointmentStatus`: the doctor's overview and its timing column.
- `DoctorDashboard` and `PatientDashboard`: the counts, the diagnosis
  tally, the chart entries and the notifications.
- `AppointmentHistory`: the patient's medical history.
- `PatientDetails`: the doctor's patient records, with the add-record and
  edit-prescription forms.
- `Register`, `Login` and `ForgotPassword`: the three sign-in forms.

Dialog answers, the stored user email, today's date and the current time are
parameters. The browser's stored entries are fields.

## Model

| member | source | states |
|---|---|---|
| Common.Filter | src/pages/patient/AppointmentHistory.jsx:39-44 | `filter`: keeps the list's order (the result is a subsequence of the list); every kept element passes the test and comes from the list; every element of the list that passes is kept |
| Common.FilterMembership | src/pages/patient/AppointmentHistory.jsx:39-44 | an element is kept exactly when it is in the list and passes the test |
| Common.FilterMultiset | src/pages/patient/AppointmentHistory.jsx:39-44 | `filter` keeps each element that passes the test as often as the list has it, and no other |
| Common.FindIndex | src/pages/doctor/PatientDetails.jsx:95 | `find`: the found index holds an element that passes and no earlier one passes; nothing is found exactly when no element passes |
| Common.SetStatus | src/pages/patient/AppointmentSchedule.jsx:44 | same length; every record with the id gets the new status, every other record is unchanged |
| Common.DefaultStatuses | src/pages/patient/AppointmentSchedule.jsx:22 | same length; each record with a missing status reads "Pending", the rest as stored |
| Common.DefaultStatusesNonEmpty | src/pages/doctor/AppointmentStatus.jsx:23 | every loaded record has a non-empty status and comes from a stored record |
| Common.DefaultStatusesFilter | src/pages/patient/AppointmentSchedule.jsx:20-22 | reading missing statuses as "Pending" and then filtering gives the same list as filtering first, for a test that does not look at the status |
| Common.LoadedFrom | src/pages/doctor/AppointmentStatus.jsx:20-23 | every loaded entry has a status and is the defaulted version of a stored record that passes the test |
| Common.LoadedAll | src/pages/doctor/AppointmentStatus.jsx:20-23 | every stored record that passes the test is loaded, with its status defaulted |
| Common.LoadOwn | src/pages/doctor/AppointmentStatus.jsx:20-23 | the loaded list is the stored list with each missing status read as "Pending", restricted to the user's records: in the same relative order as in the list (a subsequence), each as often as the list has it, and nothing else; each entry has a status and comes from a stored record of the user, and every such record is there |
| Common.PositiveStats | src/pages/doctor/DoctorDashboard.jsx:196 | the chart keeps exactly the entries with a positive value, in the same relative order as in the list (a subsequence), each as often as the list has it |
| Common.FindDoctor | src/pages/patient/AppointmentHistory.jsx:30 | a found doctor is the first in the list with that email; nothing is found exactly when no doctor has that email |
| Common.FindPatient | src/pages/patient/AppointmentHistory.jsx:18 | a found patient is the first in the list with that email; nothing is found exactly when no patient has that email |
| Common.FindHistory | src/pages/patient/AppointmentHistory.jsx:21 | a found index is an entry of that patient; nothing is found exactly when no entry is that patient's |
| Common.PatientName | src/pages/doctor/AppointmentStatus.jsx:44-47 | the name of the first patient with that email when there is one, else the fallback |
| Common.DoctorName | src/pages/patient/AppointmentSchedule.jsx:27-30 | the name of the first doctor with that email when there is one, else the fallback |
| Common.Lower | src/pages/patient/AppointmentHistory.jsx:42 | `toLowerCase` on ASCII: same length, no upper-case letter left, every other character kept, every upper-case letter replaced by its lower-case form |
| Common.ContainsAt | src/pages/patient/AppointmentHistory.jsx:42-43 | `includes` holds exactly when the needle occurs at some offset |
| Common.EmptySearchMatches | src/pages/patient/AppointmentHistory.jsx:42-43 | an empty search is contained in every string |
| Common.DateBeforeStrict | src/pages/patient/CreateAppointment.jsx:44-48 | "before" on date strings is irreflexive and transitive |
| AppointmentHistory.LoadHistory | src/pages/patient/AppointmentHistory.jsx:21-26 | newest first; exactly the records (with multiplicity) of the patient's first history entry, or none when there is no entry |
| AppointmentHistory.GetDoctorName | src/pages/patient/AppointmentHistory.jsx:29-32 | the name of a doctor with that email, or the email itself when no doctor has it |
| AppointmentHistory.FilteredHistory | src/pages/patient/AppointmentHistory.jsx:39-49 | sorted by date in the chosen direction; holds exactly the history's records whose doctor name or date matches the search, each as often as the history has it |
| AppointmentHistory.DescendingKeepsLoadedOrder | src/pages/patient/AppointmentHistory.jsx:11-49 | with the initial descending order, the table lists the hits in their loaded order |
| AppointmentHistory.HistoryView.CurrentRecords | src/pages/patient/AppointmentHistory.jsx:51-55 | a page holds at most four records |
| AppointmentHistory.HistoryView.constructor | src/pages/patient/AppointmentHistory.jsx:7-27 | without a stored email nothing is loaded; otherwise the patient and the loaded history of that email; empty search, page 1, descending |
| AppointmentHistory.HistoryView.ToggleSort | src/pages/patient/AppointmentHistory.jsx:34-36 | the direction flips and the same records are shown |
| AppointmentHistory.HistoryView.SetSearch | src/pages/patient/AppointmentHistory.jsx:77 | the search is replaced and the page kept |
| AppointmentHistory.HistoryView.HandlePageChange | src/pages/patient/AppointmentHistory.jsx:57-59 | the page moves only to a page in 1..totalPages |
| AppointmentList.PendingFor | src/pages/doctor/AppointmentList.jsx:23-25 | exactly the doctor's appointments whose status is "Pending", in the same relative order as in the list (a subsequence), each as often as the list has it |
| AppointmentList.ActionStatus | src/pages/doctor/AppointmentList.jsx:57 | "Confirmed" exactly for the confirm action, "Declined" for every other action |
| AppointmentList.Visible | src/pages/doctor/AppointmentList.jsx:71-80 | sorted by date in the chosen direction; exactly the rows whose patient name or date matches the search, each as often as the pending list has it |
| AppointmentList.HitsIgnoreStatus | src/pages/doctor/AppointmentList.jsx:55-75 | a status change leaves the number of search hits unchanged |
| AppointmentList.TriageNeverCountsAsConfirm | src/pages/doctor/AppointmentList.jsx:57 | the status written by triage never raises the number of "Confirm" records that the other views count |
| AppointmentList.PendingView.CurrentRecords | src/pages/doctor/AppointmentList.jsx:82-86 | a page holds at most five rows |
| AppointmentList.PendingView.constructor | src/pages/doctor/AppointmentList.jsx:9-27 | without a stored email nothing is loaded; otherwise the doctor and that email's Pending appointments; empty search, descending, page 1 |
| AppointmentList.PendingView.HandleAction | src/pages/doctor/AppointmentList.jsx:42-69 | confirmed: every record with the id gets the action's status; dismissed: nothing changes; the list keeps its length |
| AppointmentList.PendingView.SetSearch | src/pages/doctor/AppointmentList.jsx:104 | the search is replaced and the page returns to 1 |
| AppointmentList.PendingView.ToggleSort | src/pages/doctor/AppointmentList.jsx:110 | the order flips between ascending and descending |
| AppointmentList.PendingView.HandlePageChange | src/pages/doctor/AppointmentList.jsx:88-90 | the page moves only to a page in 1..totalPages |
| AppointmentSchedule.PatientAppointments | src/pages/patient/AppointmentSchedule.jsx:20-22 | the patient's stored appointments with each missing status read as "Pending", in the same relative order as in the list (a subsequence), each as often as the list has it; each has a non-empty status |
| AppointmentSchedule.GetDoctorName | src/pages/patient/AppointmentSchedule.jsx:27-30 | the name of a doctor with that email, or "Unknown Doctor" when there is none |
| AppointmentSchedule.Filtered | src/pages/patient/AppointmentSchedule.jsx:75-81 | exactly the rows whose status fits the tab and whose doctor name or date fits the search, in the same relative order as in the list (a subsequence), each as often as the list has it |
| AppointmentSchedule.Reschedule | src/pages/patient/AppointmentSchedule.jsx:51-65 | confirmed: a move to the booking page carrying the row's doctor email; dismissed: nothing |
| AppointmentSchedule.ScheduleView.CurrentAppointments | src/pages/patient/AppointmentSchedule.jsx:84-87 | a page holds at most three rows |
| AppointmentSchedule.ScheduleView.constructor | src/pages/patient/AppointmentSchedule.jsx:10-25 | without a stored email nothing is loaded; otherwise that patient's appointments; tab "All", empty search, page 1 |
| AppointmentSchedule.ScheduleView.Cancel | src/pages/patient/AppointmentSchedule.jsx:32-49 | confirmed: every record with the id becomes "Cancelled" and offers no action; dismissed: nothing changes |
| AppointmentSchedule.ScheduleView.SetSearch | src/pages/patient/AppointmentSchedule.jsx:103 | the search is replaced and the page kept |
| AppointmentSchedule.ScheduleView.SelectTab | src/pages/patient/AppointmentSchedule.jsx:113-135 | the tab is replaced and the page returns to 1 |
| AppointmentSchedule.ScheduleView.PrevPage | src/pages/patient/AppointmentSchedule.jsx:206-211 | the page goes down by one but not below 1 |
| AppointmentSchedule.ScheduleView.GoToPage | src/pages/patient/AppointmentSchedule.jsx:217-222 | the page becomes the button's number |
| AppointmentSchedule.ScheduleView.NextPage | src/pages/patient/AppointmentSchedule.jsx:233-234 | the page goes up by one but not past the last page, and lands in 1..totalPages |
| AppointmentStatus.DoctorAppointments | src/pages/doctor/AppointmentStatus.jsx:21-23 | the doctor's stored appointments with each missing status read as "Pending", in the same relative order as in the list (a subsequence), each as often as the list has it; each has a non-empty status |
| AppointmentStatus.GetPatientName | src/pages/doctor/AppointmentStatus.jsx:44-47 | the name of a patient with that email, or "Unknown" when there is none |
| AppointmentStatus.Filtered | src/pages/doctor/AppointmentStatus.jsx:50-56 | exactly the rows whose status fits the tab and whose patient name or date fits the search, in the same relative order as in the list (a subsequence), each as often as the list has it |
| AppointmentStatus.Timing | src/pages/doctor/AppointmentStatus.jsx:136-138 | "Done" exactly when the date-time parses and lies before now, "Upcoming" otherwise |
| AppointmentStatus.TimingCellShown | src/pages/doctor/AppointmentStatus.jsx:124-150 | a timing cell appears exactly on the "Confirm" tab and on rows of status "Confirm" of the "All" tab: only under a drawn Timing header, only on listed rows whose status is "Confirm" |
| AppointmentStatus.StatusView.CurrentAppointments | src/pages/doctor/AppointmentStatus.jsx:59-62 | a page holds at most five rows |
| AppointmentStatus.StatusView.constructor | src/pages/doctor/AppointmentStatus.jsx:7-26 | without a stored email nothing is loaded; otherwise the doctor and that doctor's appointments; tab "All", empty search, page 1 |
| AppointmentStatus.StatusView.SetSearch | src/pages/doctor/AppointmentStatus.jsx:76-79 | the search is replaced and the page returns to 1 |
| AppointmentStatus.StatusView.SelectTab | src/pages/doctor/AppointmentStatus.jsx:89-106 | the tab is replaced and the page returns to 1 |
| AppointmentStatus.StatusView.PrevPage | src/pages/doctor/AppointmentStatus.jsx:161-165 | the page goes down by one but not below 1, and stays in 1..totalPages |
| AppointmentStatus.StatusView.GoToPage | src/pages/doctor/AppointmentStatus.jsx:172-177 | the page becomes the button's number |
| AppointmentStatus.StatusView.NextPage | src/pages/doctor/AppointmentStatus.jsx:186-187 | the page goes up by one but not past the last page, and stays in 1..totalPages |
| CreateAppointment.HourLabelRoundTrip | src/pages/patient/CreateAppointment.jsx:5-9 | every full hour has its own eight-character label, and reading the label back gives the hour |
| CreateAppointment.MorningSlots | src/pages/patient/CreateAppointment.jsx:5-7 | the first six slots are the labels of the hours 7 to 12 |
| CreateAppointment.AfternoonSlots | src/pages/patient/CreateAppointment.jsx:7-8 | the last eight slots are the labels of the hours 13 to 20 |
| CreateAppointment.TimeSlotsAreTheHours7To20 | src/pages/patient/CreateAppointment.jsx:5-9 | the catalog is exactly the fourteen full hours from 07:00 AM to 08:00 PM, in order |
| CreateAppointment.TimeSlotsDistinct | src/pages/patient/CreateAppointment.jsx:5-9 | no time is offered twice |
| CreateAppointment.Validate | src/pages/patient/CreateAppointment.jsx:44-71 | the rules in source order: a past date, then a holiday, then five bookings on the date, then a taken slot; each outcome holds exactly under its condition, and the request passes exactly when no rule fails |
| CreateAppointment.SameSlotsSameCount | src/pages/patient/CreateAppointment.jsx:60-61 | the capacity count depends only on the stored dates |
| CreateAppointment.ValidateSeesOnlySlots | src/pages/patient/CreateAppointment.jsx:60-67 | two stores with the same dates and times, position by position, get the same verdict |
| CreateAppointment.StoredBookingBlocks | src/pages/patient/CreateAppointment.jsx:60-71 | on an open date below capacity, any stored booking blocks its own slot |
| CreateAppointment.CancelledBookingStillBlocks | src/pages/patient/CreateAppointment.jsx:67-71 | a cancelled booking of another doctor still makes its slot taken |
| CreateAppointment.OnDateAppend | src/pages/patient/CreateAppointment.jsx:60-95 | an appended booking adds one to its own date's count and nothing to the others |
| CreateAppointment.AcceptedAppendKeepsWellBooked | src/pages/patient/CreateAppointment.jsx:60-96 | appending a booking that passed the rules keeps every date within capacity and no slot booked twice |
| CreateAppointment.BookingForm.constructor | src/pages/patient/CreateAppointment.jsx:14-21 | stage 1, every field empty, the store as read back |
| CreateAppointment.BookingForm.FilteredDoctors | src/pages/patient/CreateAppointment.jsx:23 | exactly the doctors of the chosen specialization |
| CreateAppointment.BookingForm.ChangeSpecialization | src/pages/patient/CreateAppointment.jsx:174 | the specialization is replaced and the chosen doctor cleared |
| CreateAppointment.BookingForm.SelectDoctor | src/pages/patient/CreateAppointment.jsx:184-187 | the doctor becomes the clicked card's doctor |
| CreateAppointment.BookingForm.SetDate | src/pages/patient/CreateAppointment.jsx:205 | the date is replaced |
| CreateAppointment.BookingForm.SetTime | src/pages/patient/CreateAppointment.jsx:207-209 | the time is replaced by the empty choice or a slot of the catalog |
| CreateAppointment.BookingForm.SetNotes | src/pages/patient/CreateAppointment.jsx:222 | the notes are replaced |
| CreateAppointment.BookingForm.Next | src/pages/patient/CreateAppointment.jsx:25-36 | an incomplete stage stays, with the stage's message; a complete stage advances with the message cleared |
| CreateAppointment.BookingForm.Back | src/pages/patient/CreateAppointment.jsx:38-41 | one stage back with the message cleared; every choice is kept |
| CreateAppointment.BookingForm.NewBooking | src/pages/patient/CreateAppointment.jsx:94 | a Pending record of the patient carrying the form's doctor, date, time and notes |
| CreateAppointment.BookingForm.Submit | src/pages/patient/CreateAppointment.jsx:43-128 | a failed rule shows its message and returns to stage 2 with nothing else changed; passed and confirmed, one Pending record is appended and the form is reset; passed and declined, nothing changes; the store invariant is kept |
| DoctorDashboard.MyAppointments | src/pages/doctor/DoctorDashboard.jsx:38-40 | exactly the stored appointments of the doctor, in the same relative order as in the list (a subsequence), each as often as the list has it |
| DoctorDashboard.StatusStats | src/pages/doctor/DoctorDashboard.jsx:43-48 | four entries, Pending, Confirm, Declined and Cancelled in that order, each valued by the number of records with exactly that status |
| Common.FourCountsAtMost | src/pages/doctor/DoctorDashboard.jsx:43-48 | the four counts together never exceed the number of records |
| DoctorDashboard.StatusStatsTotal | src/pages/doctor/DoctorDashboard.jsx:43-48 | the chart total is at most the number of the doctor's records |
| DoctorDashboard.Lookup | src/pages/doctor/DoctorDashboard.jsx:54 | a positive value belongs to an entry with that name |
| DoctorDashboard.BumpLookup | src/pages/doctor/DoctorDashboard.jsx:54 | counting a diagnosis adds one to its value and leaves every other value alone |
| DoctorDashboard.DiagnosisTally | src/pages/doctor/DoctorDashboard.jsx:50-61 | the nested loops produce the tally of the diagnoses the doctor wrote, in history order |
| DoctorDashboard.TallyCounts | src/pages/doctor/DoctorDashboard.jsx:50-61 | each diagnosis is valued by its number of occurrences |
| DoctorDashboard.TallyNames | src/pages/doctor/DoctorDashboard.jsx:50-61 | the tally's names are exactly the diagnoses counted |
| DoctorDashboard.TallyShape | src/pages/doctor/DoctorDashboard.jsx:50-61 | no name repeats, every value is positive, and the names are exactly the diagnoses |
| DoctorDashboard.TallySum | src/pages/doctor/DoctorDashboard.jsx:50-61 | the values add up to the number of diagnoses counted |
| DoctorDashboard.DiagnosisTallyMeaning | src/pages/doctor/DoctorDashboard.jsx:50-61 | the bar chart lists each diagnosis the doctor wrote once, valued by the records carrying it, and the values add up to the doctor's records |
| DoctorDashboard.DoctorDiagnosesSound | src/pages/doctor/DoctorDashboard.jsx:51-53 | a counted diagnosis comes from a record of some history entry written by the doctor |
| DoctorDashboard.RecordDiagnosesSound | src/pages/doctor/DoctorDashboard.jsx:52-53 | a counted diagnosis comes from a record of the list written by the doctor |
| DoctorDashboard.Notifications | src/pages/doctor/DoctorDashboard.jsx:67-69 | oldest date first; exactly the records with status "Pending", each as often as the list has it |
| DoctorDashboard.DashboardView.PageNotifications | src/pages/doctor/DoctorDashboard.jsx:71-75 | a page holds at most five notifications |
| DoctorDashboard.DashboardView.constructor | src/pages/doctor/DoctorDashboard.jsx:25-62 | without a stored email everything stays empty; otherwise the doctor, the doctor's records, their status counts and the diagnosis tally; page 1 |
| DoctorDashboard.DashboardView.PieData | src/pages/doctor/DoctorDashboard.jsx:196 | exactly the status entries with a positive count, in their order and with their multiplicity, since the slices are coloured by position |
| DoctorDashboard.DashboardView.PrevPage | src/pages/doctor/DoctorDashboard.jsx:164-168 | the page goes down by one but not below 1, and stays in 1..totalPages |
| DoctorDashboard.DashboardView.NextPage | src/pages/doctor/DoctorDashboard.jsx:164-176 | the page goes up by one but not past the last page, and stays in 1..totalPages |
| PatientDashboard.MyAppointments | src/pages/patient/PatientDashboard.jsx:23 | exactly the stored appointments of the patient, in the same relative order as in the list (a subsequence), each as often as the list has it |
| PatientDashboard.ComputeStats | src/pages/patient/PatientDashboard.jsx:26-31 | each count is the number of records with exactly that status ("confirmed" counts "Confirm"), and the four together never exceed the records |
| PatientDashboard.Capitalize | src/pages/patient/PatientDashboard.jsx:38 | same length; the first character upper-cased, the rest kept |
| PatientDashboard.CapitalizeNames | src/pages/patient/PatientDashboard.jsx:38 | same length; each entry renamed by Capitalize with its value and position kept |
| PatientDashboard.ChartKeepsPositive | src/pages/patient/PatientDashboard.jsx:36-38 | an entry reaches the chart, renamed, exactly when its value is positive |
| PatientDashboard.ChartEntryFrom | src/pages/patient/PatientDashboard.jsx:36-38 | every chart entry is positive and is a renamed entry of the stats |
| PatientDashboard.CapitalizeWord | src/pages/patient/PatientDashboard.jsx:38 | a lower-case word gets its first letter upper-cased and keeps the rest |
| PatientDashboard.CapitalizedKeys | src/pages/patient/PatientDashboard.jsx:13-38 | the keys pending, confirmed, declined and cancelled are labelled Pending, Confirmed, Declined and Cancelled |
| PatientDashboard.ChartDataEntries | src/pages/patient/PatientDashboard.jsx:36-38 | the chart has an entry for a count, under its label and with its value, exactly when the count is positive |
| PatientDashboard.Notifications | src/pages/patient/PatientDashboard.jsx:41-43 | oldest date first; exactly the records whose status is "Confirm" or "Declined", each as often as the patient's list has it |
| PatientDashboard.PatientHome.PageNotifications | src/pages/patient/PatientDashboard.jsx:46-50 | a page holds at most five notifications |
| PatientDashboard.PatientHome.constructor | src/pages/patient/PatientDashboard.jsx:11-32 | without a stored email every count stays 0 and nothing is loaded; otherwise the patient, the patient's records and their counts; page 1 |
| PatientDashboard.PatientHome.HandlePrevPage | src/pages/patient/PatientDashboard.jsx:52 | the page goes down by one but not below 1, and stays in 1..totalPages |
| PatientDashboard.PatientHome.HandleNextPage | src/pages/patient/PatientDashboard.jsx:53 | the page goes up by one but not past the last page, and stays in 1..totalPages |
| Paging.TotalPages | src/pages/patient/AppointmentHistory.jsx:51 | `Math.ceil(n / k)`: enough pages for n items, not one more than needed, and none exactly when there are no items |
| Paging.JsSlice | src/pages/patient/AppointmentHistory.jsx:52-55 | `slice` never returns more than the list; from a start inside the list it is the run up to the end index or the list end, and an end before the start gives nothing |
| Paging.Page | src/pages/patient/AppointmentHistory.jsx:52-55 | a page holds at most `perPage` items |
| Paging.PageStartInside | src/pages/patient/AppointmentHistory.jsx:51-55 | a page in 1..totalPages starts inside the list |
| Paging.PageContents | src/pages/patient/AppointmentHistory.jsx:51-55 | a page in 1..totalPages is the non-empty run of items from its start |
| Paging.PagesConcatenate | src/pages/patient/AppointmentHistory.jsx:51-55 | the pages 1..totalPages read in order give back the whole list |
| Paging.PrevPage | src/pages/patient/PatientDashboard.jsx:52 | `Math.max(p - 1, 1)`: at least 1, never forward, one back from a page past the first |
| Paging.NextPage | src/pages/patient/PatientDashboard.jsx:53 | `Math.min(p + 1, totalPages)`: never past the last page, one forward before it, at least 1 when there is a page |
| Paging.ChangePage | src/pages/patient/AppointmentHistory.jsx:57-59 | a page in 1..totalPages is taken, any other request keeps the current page |
| Paging.PageMovesStayInRange | src/pages/patient/AppointmentHistory.jsx:57-59 | from a page in range, every page move stays in 1..totalPages |
| Sorting.Insert | src/pages/patient/AppointmentHistory.jsx:45-49 | inserting into a sorted list keeps it sorted and adds exactly the one element |
| Sorting.SortByDate | src/pages/patient/AppointmentHistory.jsx:45-49 | the result is sorted by date in the chosen direction and is a permutation of the input |
| Sorting.InsertAtEnd | src/pages/doctor/DoctorDashboard.jsx:69 | an element that precedes nothing stays behind every other one, so ties keep their order |
| Sorting.SortSortedIsIdentity | src/pages/doctor/DoctorDashboard.jsx:69 | a list already in order comes back unchanged |
| Sorting.SortIdempotent | src/pages/doctor/AppointmentList.jsx:76-80 | sorting a sorted result again changes nothing |
| Sorting.FilterSorted | src/pages/patient/AppointmentHistory.jsx:39-49 | keeping some elements of a sorted list keeps it sorted |
| Sorting.SortedPrefix | src/pages/patient/AppointmentHistory.jsx:45-49 | a prefix of a sorted list is sorted |
| Sorting.SortedSuffix | src/pages/patient/AppointmentHistory.jsx:45-49 | a list without its first element is still sorted |
| PatientDetails.DoctorPatients | src/pages/doctor/PatientDetails.jsx:38 | an email is in the list exactly when some appointment with that doctor is booked by it |
| PatientDetails.LoadEntries | src/pages/doctor/PatientDetails.jsx:40-46 | filtering the shared histories never yields more entries than there are |
| PatientDetails.OwnHistories | src/pages/doctor/PatientDetails.jsx:40-46 | the shared entries of the given patients, in the same relative order as in the list (a subsequence), each as often as the list has it |
| PatientDetails.EntriesFor | src/pages/doctor/PatientDetails.jsx:40-43 | one page entry per shared entry, in the same order, each with its patient account looked up and its records copied |
| PatientDetails.EntriesForHas | src/pages/doctor/PatientDetails.jsx:40-43 | the page entry of every shared entry given is in the result |
| PatientDetails.LoadEntriesOwn | src/pages/doctor/PatientDetails.jsx:39-45 | the page's map to `null` and drop of the nulls gives the same list as keeping the patients' shared entries first (`OwnHistories`) and then mapping them (`EntriesFor`) |
| PatientDetails.OwnHistoriesMembers | src/pages/doctor/PatientDetails.jsx:41 | a shared entry is kept exactly when its patient is one of the given ones |
| PatientDetails.LoadHistories | src/pages/doctor/PatientDetails.jsx:31-48 | the page holds the shared entries of exactly the patients who have an appointment with the doctor, in store order and each as often as stored, each with its patient account looked up; every such shared entry has its page entry; a looked-up patient is a known account that booked with the doctor |
| PatientDetails.EmptyRecord | src/pages/doctor/PatientDetails.jsx:21-29 | a fresh form record: the given date, no diagnosis, and one line that is blank except for the defaults "mg", "Tablet" and "days" |
| PatientDetails.SelectedIn | src/pages/doctor/PatientDetails.jsx:53 | the selected patient is the first entry whose patient has the selected email, and there is none exactly when no entry has it |
| PatientDetails.PatientCards | src/pages/doctor/PatientDetails.jsx:163-166 | a card is shown exactly for the entries whose patient name or email contains the search, ignoring case, in the same relative order as in the list (a subsequence), each as often as the list has it |
| PatientDetails.SelectedSame | src/pages/doctor/PatientDetails.jsx:53 | rewriting the records of the entries does not change which patient is selected |
| PatientDetails.FindHistorySame | src/pages/doctor/PatientDetails.jsx:95 | rewriting the records of shared entries does not change which entry an email finds |
| PatientDetails.RecordHits | src/pages/doctor/PatientDetails.jsx:139-143 | the records the search keeps, in the same relative order as in the list (a subsequence), each as often as the list has it; at most as many as the records |
| PatientDetails.RecordHitsMembers | src/pages/doctor/PatientDetails.jsx:140-143 | a record is kept exactly when its diagnosis, or the brand or non-empty title of one of its lines, contains the search, ignoring case |
| PatientDetails.FilteredRecords | src/pages/doctor/PatientDetails.jsx:138-145 | the table is sorted by date in the chosen direction and holds exactly the records the search keeps, each as often as stored |
| PatientDetails.FilteredRecordsMembers | src/pages/doctor/PatientDetails.jsx:138-145 | the table lists exactly the patient's records that fit the search |
| PatientDetails.EmptySearchListsAll | src/pages/doctor/PatientDetails.jsx:140-143 | with an empty search box every record is kept and the table is a permutation of them all |
| PatientDetails.RowRecord | src/pages/doctor/PatientDetails.jsx:213-226 | the position in the stored records of the record a table row shows, so an edit of that row would change that record |
| PatientDetails.NewerOnFirstRow | src/pages/doctor/PatientDetails.jsx:144 | with the default newest-first order and an empty search, the newer of two records is on the first row |
| PatientDetails.EditOpensAnotherRecord | src/pages/doctor/PatientDetails.jsx:104 | for two records stored oldest first, the first row shows the newer one while the row index read in the stored records opens the older one |
| PatientDetails.AsWrittenMatchesRowWhenSorted | src/pages/doctor/PatientDetails.jsx:102-104 | with an empty search and the records stored in the table's order, the table is the stored list, and the row index as written opens the record the row shows, the one `RowRecord` finds |
| PatientDetails.SetField | src/pages/doctor/PatientDetails.jsx:68-72 | the chosen field of the line takes the value and every other field stays |
| PatientDetails.RemoveAt | src/pages/doctor/PatientDetails.jsx:74-78 | the line at the index leaves, the others keep their order, and exactly one copy of it is gone |
| PatientDetails.SavedRecord | src/pages/doctor/PatientDetails.jsx:118-126 | the saved record takes the draft's date, diagnosis and first line at the edited position, or at the end when the record has no line there; its other lines and doctor stay |
| PatientDetails.EditDraft | src/pages/doctor/PatientDetails.jsx:104-110 | the edit form opens with one line and the record's date and diagnosis: a copy of the edited line, which saved unchanged gives back the record, or an empty line when the record has no line at that index |
| PatientDetails.SaveReadsFirstLineOnly | src/pages/doctor/PatientDetails.jsx:120 | lines added to a draft after its first have no effect on the save |
| PatientDetails.AddShownOnlyAsWritten | src/pages/doctor/PatientDetails.jsx:359-360 | the as-written test and the form's own test differ exactly while an edit of the first record (index 0, which is falsy) is open |
| PatientDetails.AddPrescriptionShown | src/pages/doctor/PatientDetails.jsx:245-252 | the add-line button is offered exactly when no edit is open, which the as-written test also allows |
| PatientDetails.AppendRecordTo | src/pages/doctor/PatientDetails.jsx:88-93 | the selected patient's entries gain the record at the end; every other entry and every patient stays |
| PatientDetails.ReplaceRecordsOf | src/pages/doctor/PatientDetails.jsx:128-130 | the selected patient's entries take the updated records; every other entry and every patient stays |
| PatientDetails.StoreAdd | src/pages/doctor/PatientDetails.jsx:95-97 | the patient's first shared entry gains the record at the end and every other entry, later ones of the same email included, stays; or, with no entry, exactly one entry holding only that record is pushed at the end; every other email finds what it found before |
| PatientDetails.StoreReplace | src/pages/doctor/PatientDetails.jsx:132-133 | in the patient's first shared entry the record at the index becomes the saved one; every other entry and every lookup stays; with no entry, or an index past its records, the list is unchanged |
| PatientDetails.LoadedSynced | src/pages/doctor/PatientDetails.jsx:40-48 | the loaded page starts with each patient's records equal to those of the patient's shared entry |
| PatientDetails.AddKeepsSynced | src/pages/doctor/PatientDetails.jsx:88-97 | adding a record to the page and to the shared list keeps the two in step |
| PatientDetails.SaveKeepsSynced | src/pages/doctor/PatientDetails.jsx:128-133 | saving an edited record on the page and in the shared list keeps the two in step |
| PatientDetails.DetailsView.constructor | src/pages/doctor/PatientDetails.jsx:9-49 | the first render's state; without a stored email nothing is loaded, otherwise the doctor and the patient histories are |
| PatientDetails.DetailsView.SetPatientSearch | src/pages/doctor/PatientDetails.jsx:157-159 | the patient search takes the typed text (empty for Clear) |
| PatientDetails.DetailsView.SelectPatient | src/pages/doctor/PatientDetails.jsx:167 | a card click selects that patient, who is then found, and shows the history screen |
| PatientDetails.DetailsView.HandleBack | src/pages/doctor/PatientDetails.jsx:55-59 | the chosen screen, an empty draft and no open edit |
| PatientDetails.DetailsView.SetHistorySearch | src/pages/doctor/PatientDetails.jsx:184 | the record search takes the typed text |
| PatientDetails.DetailsView.ToggleSort | src/pages/doctor/PatientDetails.jsx:186 | the sort flips direction and the table keeps the same records |
| PatientDetails.DetailsView.StartNewRecord | src/pages/doctor/PatientDetails.jsx:190 | the form opens on an empty draft with no edit open |
| PatientDetails.DetailsView.HandleEditPrescription | src/pages/doctor/PatientDetails.jsx:102-112 | the open edit points at the clicked row's index and line, read in the stored records (not in the table), and the form opens on a one-line draft of that stored record |
| PatientDetails.DetailsView.ShowForm | src/pages/doctor/PatientDetails.jsx:106-111 | the form screen with the given draft and open edit |
| PatientDetails.DetailsView.SetDraftDate | src/pages/doctor/PatientDetails.jsx:254 | only the draft's date changes |
| PatientDetails.DetailsView.SetDraftDiagnosis | src/pages/doctor/PatientDetails.jsx:255 | only the draft's diagnosis changes |
| PatientDetails.DetailsView.HandleAddPrescription | src/pages/doctor/PatientDetails.jsx:61-66 | offered as written, also while the first record is being edited; a blank line is appended to the draft |
| PatientDetails.DetailsView.HandlePrescriptionChange | src/pages/doctor/PatientDetails.jsx:68-72 | one field of one draft line changes |
| PatientDetails.DetailsView.HandleRemovePrescription | src/pages/doctor/PatientDetails.jsx:74-78 | the draft line leaves, offered only while there is more than one |
| PatientDetails.DetailsView.HandleAddRecord | src/pages/doctor/PatientDetails.jsx:80-100 | without a diagnosis only the error shows; otherwise the draft is appended on the page and in the shared list, the history screen returns, and the two lists stay in step |
| PatientDetails.DetailsView.HandleSavePrescription | src/pages/doctor/PatientDetails.jsx:114-136 | with any draft of at least one line, the edited record is replaced on the page and in the shared list, the history screen returns with no edit open, and the two lists stay in step |
| PatientDetails.DetailsView.ShowHistory | src/pages/doctor/PatientDetails.jsx:99 | the written lists, the history screen, an empty draft and no open edit |
| Register.AlnumToEndAll | src/pages/auth/Register.jsx:27 | the pattern's tail `[A-Za-z\d]*$` accepts a string exactly when every character is a letter or a digit |
| Register.AnyThenFinds | src/pages/auth/Register.jsx:27 | a lookahead of the pattern that succeeds has found a character of its class |
| Register.AnyThenReaches | src/pages/auth/Register.jsx:27 | a character of the class with no line terminator before it makes the lookahead succeed |
| Register.PatternIsRule | src/pages/auth/Register.jsx:27 | the password pattern accepts exactly the strings of at least six letters and digits holding at least one letter and at least one digit |
| Register.MixedPasswordAccepted | src/pages/auth/Register.jsx:27 | "abc123" passes the pattern |
| Register.LettersOnlyRejected | src/pages/auth/Register.jsx:27 | a password of letters only fails the pattern |
| Register.FiveCharactersRejected | src/pages/auth/Register.jsx:27 | five characters fail the pattern, even mixing letters and digits |
| Register.SymbolRejected | src/pages/auth/Register.jsx:27 | a password holding a space fails the pattern |
| Register.NewPatient | src/pages/auth/Register.jsx:50-56 | the new patient has the next id after the known patients, age 0 and the form's name, email and password; the id is new when the known ids are 1 to n |
| Register.RegisterForm.constructor | src/pages/auth/Register.jsx:8-12 | every field empty and the password hidden |
| Register.RegisterForm.SetName | src/pages/auth/Register.jsx:101 | the name takes the typed text |
| Register.RegisterForm.SetEmail | src/pages/auth/Register.jsx:114 | the email takes the typed text |
| Register.RegisterForm.SetPassword | src/pages/auth/Register.jsx:127 | the password takes the typed text |
| Register.RegisterForm.TogglePassword | src/pages/auth/Register.jsx:133 | the password visibility flips |
| Register.RegisterForm.ResetForm | src/pages/auth/Register.jsx:15-21 | every field and the error cleared, the password hidden |
| Register.RegisterForm.HandleRegister | src/pages/auth/Register.jsx:23-76 | a password breaking the rule shows the error and keeps the inputs; a declined dialog creates nothing; a confirmed one builds the new patient from the inputs and resets the form |
| Login.FindDoctorLogin | src/pages/auth/Login.jsx:22-24 | a doctor found has both the email and the password, and none is found exactly when no doctor has both |
| Login.FindPatientLogin | src/pages/auth/Login.jsx:32-34 | a patient found has both the email and the password, and none is found exactly when no patient has both |
| Login.Utf16Length | src/pages/auth/Login.jsx:17 | JavaScript's `length`: at least one and at most two code units per character, and one per character when no character is beyond U+FFFF |
| Login.ThreeEmojiPasswordIsLongEnough | src/pages/auth/Login.jsx:17-20 | a password of three characters beyond U+FFFF passes the six-unit check |
| Login.Attempt | src/pages/auth/Login.jsx:13-43 | a password under six UTF-16 code units is refused first; a doctor with both credentials signs in as doctor; otherwise a patient with both as patient; otherwise the attempt is invalid, each case exactly when its condition holds |
| Login.LoginForm.constructor | src/pages/auth/Login.jsx:7-10 | empty inputs, no error, the password hidden, the browser's stored entries as they were |
| Login.LoginForm.SetEmail | src/pages/auth/Login.jsx:71 | the email takes the typed text |
| Login.LoginForm.SetPassword | src/pages/auth/Login.jsx:84 | the password takes the typed text |
| Login.LoginForm.TogglePassword | src/pages/auth/Login.jsx:90 | the password visibility flips |
| Login.LoginForm.HandleLogin | src/pages/auth/Login.jsx:13-43 | a sign-in stores the role and the email and clears the error; a password under six UTF-16 code units or unknown credentials show their error and leave the stored entries alone |
| ForgotPassword.AccountExistsFinds | src/pages/auth/ForgotPassword.jsx:16-18 | an account exists exactly when the doctor or the patient lookup by email finds one |
| ForgotPassword.TickValue | src/pages/auth/ForgotPassword.jsx:44-49 | a tick lowers a running countdown by one and leaves a finished one alone |
| ForgotPassword.CountdownValue | src/pages/auth/ForgotPassword.jsx:44-49 | n ticks take n seconds off the countdown and stop it at zero |
| ForgotPassword.ResendOpensAfterDelay | src/pages/auth/ForgotPassword.jsx:44-49 | after a code is sent the countdown is over exactly once thirty ticks have passed |
| ForgotPassword.RecoveryForm.constructor | src/pages/auth/ForgotPassword.jsx:7-10 | empty email, not submitted, no error, no countdown |
| ForgotPassword.RecoveryForm.SetEmail | src/pages/auth/ForgotPassword.jsx:92 | the email takes the typed text |
| ForgotPassword.RecoveryForm.HandleSubmit | src/pages/auth/ForgotPassword.jsx:13-28 | an unknown email shows the error and changes nothing else; a known one clears it, shows the sent view and starts the 30-second countdown |
| ForgotPassword.RecoveryForm.HandleResend | src/pages/auth/ForgotPassword.jsx:30-35 | only with the countdown over does it restart it and give the resend notice |
| ForgotPassword.RecoveryForm.HandleDifferentEmail | src/pages/auth/ForgotPassword.jsx:37-42 | back to the first render's state |
| ForgotPassword.RecoveryForm.Tick | src/pages/auth/ForgotPassword.jsx:44-49 | one tick of the countdown, which stays between 0 and 30 |

## Left out

- Rendering: the markup, icons, styling and the pie and bar charts are presentation. Only the data each chart is given is modelled: `PieData` in `DoctorDashboard` and `PatientDashboard.ChartData`.
- Dialogs: the SweetAlert2 confirmations and their `async`/`then` sequencing become a `bool` argument, which is the user's answer. The notices the dialogs show become returned strings.
- Browser storage and JSON: `localStorage` becomes fields or parameters of type `Option<string>`. The booking store is a sequence field, so (de)serialisation is not modelled.
- CreateAppointment.BookingForm.Submit: takes the patient's email as a given string. The page reads it from `localStorage` (CreateAppointment.jsx:73) and would store `null` in the new booking when no one is signed in; that case is not modelled.
- Dates and time zones: dates are `"YYYY-MM-DD"` strings ordered by character, which for this format is the calendar order.
- `today` is a parameter. `new Date(date + " " + time)` becomes a given `Option<int>` that is None when the string does not parse, and `now` an integer. The difference between local and UTC midnight is not modelled.
- Real time: the one-second `setInterval` of the recovery form is one `Tick` method. Elapsed time is the number of ticks (`Countdown`).
- Case folding: `toLowerCase` is modelled on ASCII letters only. Other characters are left as they are, with no Unicode folding.
- Navigation: `navigate(...)` calls, routing, layouts, the landing page, the login modal and `console.log` are not modelled. Where a handler navigates with data, as Reschedule does, the data is returned.
- The doctor and patient profile pages are not part of this model. They edit text fields and preview an image through a browser API.
- Register.RegisterForm.HandleRegister: the page only logs the new patient and never adds it to the account list. The model returns the record and leaves the account list alone, as the page does.
- Login.LoginForm: the password-visibility toggle is modelled, but the input type it switches is rendering.
- Browser form validation: Login.LoginForm.HandleLogin, Register.RegisterForm.HandleRegister, ForgotPassword.RecoveryForm.HandleSubmit, PatientDetails.DetailsView.HandleAddRecord and PatientDetails.DetailsView.HandleSavePrescription run from a form's submit, and the browser refuses that submit while a `required` input is empty or a `type="email"` input is not an email address (Login.jsx:68-86, Register.jsx:103-129, ForgotPassword.jsx:89-95, PatientDetails.jsx:254-281). The model does not apply that validation: its handlers also accept such inputs, so they reach outcomes the page cannot, such as a patient with an empty name, the unknown-account error for an empty email, the missing-diagnosis alert of HandleAddRecord, or a prescription line with an empty brand. Every outcome the page can reach is modelled as the handler's code gives it.
- PatientDetails.LoadHistories: an entry whose patient account is missing holds `None`. The page would fail on such an entry when it reads `h.patient.email`, and the model does not capture that failure.
- PatientDetails.StoreReplace: when the index is past the patient's shared records, the list is left unchanged. The page would write past the end of the array and so grow it with holes. The save is reached only with an index in range, so this case does not arise there.
- PatientDetails: the page mutates in place the shared history entries and the copied prescription objects, so `handlePrescriptionChange` writes into an object shared with the previous draft. The model works on values, so this aliasing is not captured. Each write is modelled as the new value it leaves.
- PatientDetails.DetailsView.HandleAddRecord: the page and the shared list are proved to stay in step only when the shared list holds at most one entry per email (`DistinctEmails`). The loaded data has that property.
- PatientDetails.DetailsView.HandleEditPrescription: modelled as written, reading the row index in the stored records; the corrected lookup (`RowRecord`) and the corrected button test (`AddPrescriptionShown`) are the other halves of the rows under Findings, and the page does not use them.
- PatientDetails.EditDraft: when the stored record has no line at the clicked index, the page copies `{...undefined}`, a line whose fields are all undefined. The model gives each of them `""`, so a later search that calls `toLowerCase` on such a saved line's brand, which fails in the page, is not captured.
- PatientDetails.SavedRecord: a line index past the record's end puts the line at the end. The page writes at that index, which leaves holes when the index is more than one past the end; holes are not modelled.
- PatientDetails.EmptyRecord: records created by the form carry no `doctorEmail`; the model gives them `""`.
- DoctorDashboard: the tally is a sequence of (diagnosis, count) pairs in first-seen order. That is the order `Object.entries` gives for keys that are not integer-like; the order for integer-like keys is not modelled.
- AppointmentHistory.GetDoctorName: a record with no `doctorEmail` is read as the email `""`. In the page, `getDoctorName(undefined)` returns `undefined` and the search filter (AppointmentHistory.jsx:42) then calls `toLowerCase` on it and throws, so the history page fails once such a record exists; records added by the doctor's record form (PatientDetails.jsx:80-97) are such records. The model does not capture that failure.
- DoctorDashboard.DiagnosisTally: the page counts into a plain object `{}`, whose inherited members answer for diagnoses such as `"constructor"` or `"toString"` (the count becomes a string) and whose `"__proto__"` key is not stored. The model treats every diagnosis as an ordinary key.
- Sorting.SortByDate: its contract states that the result is in date order and a permutation of the input, not that records of the same date keep their relative order, which Array.prototype.sort guarantees.

## Findings

| source | as written | input that shows it | evidently intended | confidence | as-written member | corrected member |
|---|---|---|---|---|---|---|
| src/pages/doctor/PatientDetails.jsx:104 | the edit button passes the row's index in the filtered, sorted table (lines 213, 226), but the handler reads that index in the unfiltered stored records | two records stored oldest first, the default newest-first sort and an empty search: row 0 shows the newer record, and its edit button opens the older one | the edit opens the record the row shows | not executed | PatientDetails.EditOpensAnotherRecord | PatientDetails.RowRecord |
| src/pages/doctor/PatientDetails.jsx:359 | "Add Another Prescription" is shown when `!editingPrescription.recordIndex`, and index 0 is falsy | editing a line of record 0: the button is shown, and the lines it adds are dropped on save, because the save reads only the draft's first line (line 120) | the button is shown only when no edit is open, as the form's title and submit test say (lines 245-252) | not executed | PatientDetails.AddShownOnlyAsWritten | PatientDetails.AddPrescriptionShown |
