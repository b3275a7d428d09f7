/**
 * The doctor's patient histories (PatientDetails.jsx): the histories of the
 * patients who have an appointment with the logged-in doctor, a patient
 * search, one patient's records with a search and a date sort, a form that
 * adds a record, and a form that edits one prescription of a record. Adding
 * and saving write both the page's own copy of the histories and the shared
 * `patientHistories` list (here the `store`).
 */
module PatientDetails {
  import opened Common
  import opened Sorting

  /** The three screens of the page (`currentPage`). */
  datatype Screen = PatientList | HistoryPage | RecordForm

  /** `editingPrescription` when it is not `{null, null}`. */
  datatype EditTarget = EditTarget(recordIndex: nat, prescriptionIndex: nat)

  /**
   * One entry of `allPatientHistories`: the patient account with that email
   * (None when `patients.find` finds none) and a copy of the records.
   */
  datatype PatientEntry = PatientEntry(patient: Option<Patient>, records: seq<MedicalRecord>)

  /** The prescription fields `handlePrescriptionChange` can set. */
  datatype Field = Title | Brand | StrengthValue | StrengthUnit | Dosage | DurationValue | DurationUnit | Frequency

  const MissingDiagnosis := "Diagnosis is required."
  const RecordAdded := "New record has been added."
  const PrescriptionSaved := "Prescription has been updated."

  /** The blank prescription line of a new form. */
  const BlankPrescription := Prescription("", "", "", "mg", "Tablet", "", "days", "")

  /** `getEmptyRecord()`: today's date (`today` is the UTC date), no diagnosis, one blank line. */
  function EmptyRecord(today: string): (r: MedicalRecord)
    ensures r.date == today && r.diagnosis == "" && |r.prescriptions| == 1
    ensures var line := r.prescriptions[0];
      && line.strengthUnit == "mg" && line.dosage == "Tablet" && line.durationUnit == "days"
      && line.title == "" && line.brand == "" && line.strengthValue == "" && line.durationValue == "" && line.frequency == ""
  {
    MedicalRecord(today, "", [BlankPrescription], "")
  }

  // ---------------------------------------------------------------------
  // Loading

  /** The patient `patientEmail` has an appointment with doctor `email`. */
  predicate Booked(appointments: seq<Appointment>, email: string, patientEmail: string)
  {
    exists a :: a in appointments && a.doctorEmail == email && a.patientEmail == patientEmail
  }

  /** `hardcodedAppointments.filter(a => a.doctorEmail === email).map(a => a.patientEmail)`. */
  function DoctorPatients(appointments: seq<Appointment>, email: string): (r: seq<string>)
    ensures forall e :: e in r <==> Booked(appointments, email, e)
  {
    if appointments == [] then []
    else
      var rest := DoctorPatients(appointments[1..], email);
      assert forall a :: a in appointments <==> a == appointments[0] || a in appointments[1..];
      (if appointments[0].doctorEmail == email then [appointments[0].patientEmail] else []) + rest
  }

  /** The page's entry for one shared history entry. */
  function EntryFor(patients: seq<Patient>, h: HistoryEntry): PatientEntry
  {
    PatientEntry(FindPatient(patients, h.patientEmail), h.records)
  }

  /** The history entries whose email is in `mine`, each as a page entry, in store order. */
  function LoadEntries(store: seq<HistoryEntry>, patients: seq<Patient>, mine: seq<string>): (r: seq<PatientEntry>)
    ensures |r| <= |store|
  {
    if store == [] then []
    else
      var rest := LoadEntries(store[1..], patients, mine);
      if store[0].patientEmail in mine then [EntryFor(patients, store[0])] + rest else rest
  }

  /** The shared history entries whose email is in `mine`, in store order, each as often as stored. */
  function OwnHistories(store: seq<HistoryEntry>, mine: seq<string>): (r: seq<HistoryEntry>)
    ensures Subsequence(r, store)
    ensures forall h :: multiset(r)[h] == if h.patientEmail in mine then multiset(store)[h] else 0
  {
    if store == [] then []
    else
      assert store == [store[0]] + store[1..];
      var head := if store[0].patientEmail in mine then [store[0]] else [];
      var rest := OwnHistories(store[1..], mine);
      assert Subsequence(head + rest, store) by {
        if head == [] { assert head + rest == rest; } else { assert (head + rest)[1..] == rest; }
      }
      assert multiset(head + rest) == multiset(head) + multiset(rest);
      head + rest
  }

  /** `.map(...)` of page entries over shared entries: one page entry per shared entry, in order. */
  function EntriesFor(patients: seq<Patient>, hs: seq<HistoryEntry>): (r: seq<PatientEntry>)
    ensures |r| == |hs|
    ensures forall i :: 0 <= i < |hs| ==> r[i] == EntryFor(patients, hs[i])
  {
    if hs == [] then [] else [EntryFor(patients, hs[0])] + EntriesFor(patients, hs[1..])
  }

  /** The page's map-then-drop-nulls is the filter `OwnHistories` followed by the map `EntriesFor`. */
  lemma {:induction false} LoadEntriesOwn(store: seq<HistoryEntry>, patients: seq<Patient>, mine: seq<string>)
    ensures LoadEntries(store, patients, mine) == EntriesFor(patients, OwnHistories(store, mine))
  {
    if store != [] {
      LoadEntriesOwn(store[1..], patients, mine);
      var own := OwnHistories(store[1..], mine);
      if store[0].patientEmail in mine {
        assert OwnHistories(store, mine) == [store[0]] + own;
        assert ([store[0]] + own)[1..] == own;
      } else {
        assert OwnHistories(store, mine) == [] + own;
        assert [] + own == own;
      }
    }
  }

  /** A shared entry is kept exactly when its email is in `mine`. */
  lemma OwnHistoriesMembers(store: seq<HistoryEntry>, mine: seq<string>)
    ensures forall h :: h in OwnHistories(store, mine) <==> h in store && h.patientEmail in mine
  {
    forall h ensures h in OwnHistories(store, mine) <==> h in store && h.patientEmail in mine {
      assert h in OwnHistories(store, mine) <==> h in multiset(OwnHistories(store, mine));
      assert h in store <==> h in multiset(store);
    }
  }

  /** The page entry of every shared entry of `hs` is in the map. */
  lemma EntriesForHas(patients: seq<Patient>, hs: seq<HistoryEntry>, h: HistoryEntry)
    requires h in hs
    ensures EntryFor(patients, h) in EntriesFor(patients, hs)
  {
    var j :| 0 <= j < |hs| && hs[j] == h;
    assert EntriesFor(patients, hs)[j] == EntryFor(patients, h);
  }

  /**
   * The mount effect's list: the shared history entries of the patients who
   * have at least one appointment with doctor `email`, each with its
   * patient account looked up, in store order; an entry of every such patient
   * is there.
   */
  function LoadHistories(appointments: seq<Appointment>, store: seq<HistoryEntry>, patients: seq<Patient>, email: string)
    : (r: seq<PatientEntry>)
    ensures r == EntriesFor(patients, OwnHistories(store, DoctorPatients(appointments, email)))
    ensures forall h :: h in OwnHistories(store, DoctorPatients(appointments, email)) <==>
      h in store && Booked(appointments, email, h.patientEmail)
    ensures forall i :: 0 <= i < |r| && r[i].patient.Some? ==>
      r[i].patient.value in patients && Booked(appointments, email, r[i].patient.value.email)
    ensures forall h :: h in store && Booked(appointments, email, h.patientEmail) ==> EntryFor(patients, h) in r
  {
    var mine := DoctorPatients(appointments, email);
    var own := OwnHistories(store, mine);
    LoadEntriesOwn(store, patients, mine);
    OwnHistoriesMembers(store, mine);
    forall i | 0 <= i < |own| ensures own[i].patientEmail in mine {
      assert own[i] in own;
    }
    forall h | h in store && Booked(appointments, email, h.patientEmail) ensures EntryFor(patients, h) in EntriesFor(patients, own) {
      EntriesForHas(patients, own, h);
    }
    LoadEntries(store, patients, mine)
  }

  // ---------------------------------------------------------------------
  // Looking up entries

  predicate Named(h: PatientEntry, email: string)
  {
    h.patient.Some? && h.patient.value.email == email
  }

  /** `allPatientHistories.find(h => h.patient.email === email)`, as an index. */
  function SelectedIn(view: seq<PatientEntry>, email: string): (r: Option<nat>)
    ensures r.Some? ==> r.value < |view| && Named(view[r.value], email)
    ensures r.Some? ==> forall j :: 0 <= j < r.value ==> !Named(view[j], email)
    ensures r.None? <==> forall j :: 0 <= j < |view| ==> !Named(view[j], email)
  {
    if view == [] then None
    else if Named(view[0], email) then Some(0)
    else match SelectedIn(view[1..], email)
      case None => None
      case Some(i) => Some(i + 1)
  }

  /** The patient list's search: name or email, both lower-cased, contains the lower-cased search. */
  predicate CardHit(h: PatientEntry, search: string)
  {
    h.patient.Some? &&
    (Contains(Lower(h.patient.value.name), Lower(search)) || Contains(Lower(h.patient.value.email), Lower(search)))
  }

  /** The patient cards of the list screen, in list order. */
  function PatientCards(view: seq<PatientEntry>, search: string): (r: seq<PatientEntry>)
    ensures forall h :: h in r <==> h in view && CardHit(h, search)
    ensures Subsequence(r, view)
    ensures forall h :: multiset(r)[h] == if CardHit(h, search) then multiset(view)[h] else 0
  {
    var p := (h: PatientEntry) => CardHit(h, search);
    forall h ensures h in Filter(view, p) <==> h in view && p(h) {
      FilterMembership(view, p, h);
    }
    FilterMultiset(view, p);
    Filter(view, p)
  }

  /** Entries with the same emails at the same positions are looked up alike. */
  lemma SelectedSame(a: seq<PatientEntry>, b: seq<PatientEntry>, email: string)
    requires |a| == |b| && forall j :: 0 <= j < |a| ==> a[j].patient == b[j].patient
    ensures SelectedIn(a, email) == SelectedIn(b, email)
  {
  }

  /** History lists with the same emails at the same positions are looked up alike. */
  lemma FindHistorySame(a: seq<HistoryEntry>, b: seq<HistoryEntry>, email: string)
    requires |a| == |b| && forall j :: 0 <= j < |a| ==> a[j].patientEmail == b[j].patientEmail
    ensures FindHistory(a, email) == FindHistory(b, email)
  {
  }

  // ---------------------------------------------------------------------
  // Record search and sort

  /** One prescription line fits a lower-cased search `q` by brand, or by a non-empty title. */
  predicate PrescriptionHit(p: Prescription, q: string)
  {
    Contains(Lower(p.brand), q) || (p.title != "" && Contains(Lower(p.title), q))
  }

  /** `filteredRecords`' test: the diagnosis, or some prescription line, fits the search. */
  predicate RecordHit(search: string, r: MedicalRecord)
  {
    var q := Lower(search);
    Contains(Lower(r.diagnosis), q) || exists j :: 0 <= j < |r.prescriptions| && PrescriptionHit(r.prescriptions[j], q)
  }

  /** The records the search keeps, in their stored order. */
  function RecordHits(records: seq<MedicalRecord>, search: string): (r: seq<MedicalRecord>)
    ensures Subsequence(r, records)
    ensures forall x :: multiset(r)[x] == if RecordHit(search, x) then multiset(records)[x] else 0
    ensures multiset(r) <= multiset(records)
    ensures |r| <= |records|
  {
    if records == [] then []
    else
      assert records == [records[0]] + records[1..];
      var head := if RecordHit(search, records[0]) then [records[0]] else [];
      var rest := RecordHits(records[1..], search);
      assert Subsequence(head + rest, records) by {
        if head == [] { assert head + rest == rest; } else { assert (head + rest)[1..] == rest; }
      }
      assert multiset(head + rest) == multiset(head) + multiset(rest);
      head + rest
  }

  lemma RecordHitsMembers(records: seq<MedicalRecord>, search: string, x: MedicalRecord)
    ensures x in RecordHits(records, search) <==> x in records && RecordHit(search, x)
  {
    assert x in RecordHits(records, search) <==> x in multiset(RecordHits(records, search));
    assert x in records <==> x in multiset(records);
  }

  /**
   * `filteredRecords` of the selected patient: the records the search keeps,
   * ascending by date when `asc` and descending otherwise.
   */
  function FilteredRecords(records: seq<MedicalRecord>, search: string, asc: bool): (r: seq<MedicalRecord>)
    ensures Sorted(r, RecordDate, asc)
    ensures multiset(r) == multiset(RecordHits(records, search)) <= multiset(records)
    ensures forall x :: multiset(r)[x] == if RecordHit(search, x) then multiset(records)[x] else 0
    ensures |r| <= |records|
  {
    SortByDate(RecordHits(records, search), RecordDate, asc)
  }

  /** The table lists exactly the records that fit the search. */
  lemma FilteredRecordsMembers(records: seq<MedicalRecord>, search: string, asc: bool)
    ensures forall x :: x in FilteredRecords(records, search, asc) <==> x in records && RecordHit(search, x)
  {
    var r := FilteredRecords(records, search, asc);
    forall x ensures x in r <==> x in records && RecordHit(search, x) {
      assert x in r <==> x in multiset(r);
      assert x in RecordHits(records, search) <==> x in multiset(RecordHits(records, search));
      RecordHitsMembers(records, search, x);
    }
  }

  /** With the search box empty, every record of the patient is listed. */
  lemma {:induction false} EmptySearchListsAll(records: seq<MedicalRecord>, asc: bool)
    ensures RecordHits(records, "") == records
    ensures multiset(FilteredRecords(records, "", asc)) == multiset(records)
  {
    if records != [] {
      assert Lower("") == "";
      EmptySearchMatches(Lower(records[0].diagnosis));
      EmptySearchListsAll(records[1..], asc);
      assert records == [records[0]] + records[1..];
    }
  }

  /**
   * The position in `records` of the record drawn on row `row` of the
   * filtered, sorted table: the record an edit of that row must change.
   */
  function RowRecord(records: seq<MedicalRecord>, search: string, asc: bool, row: nat): (k: nat)
    requires row < |FilteredRecords(records, search, asc)|
    ensures k < |records| && records[k] == FilteredRecords(records, search, asc)[row]
  {
    var x := FilteredRecords(records, search, asc)[row];
    assert x in multiset(FilteredRecords(records, search, asc));
    assert x in multiset(records);
    IndexOf(records, x)
  }

  /** The first position of `x` in `s`. */
  function IndexOf<T(==)>(s: seq<T>, x: T): (k: nat)
    requires x in s
    ensures k < |s| && s[k] == x
  {
    if s[0] == x then 0 else 1 + IndexOf(s[1..], x)
  }

  /**
   * The record the edit button of table row `row` opens: the row's index is
   * read in the stored, unfiltered and unsorted list.
   */
  function EditedRecordAsWritten(records: seq<MedicalRecord>, row: nat): MedicalRecord
    requires row < |records|
  {
    records[row]
  }

  /** With the search empty and the sort descending, the newer of two records is on the first row. */
  lemma NewerOnFirstRow(older: MedicalRecord, newer: MedicalRecord)
    requires LexLe(older.date, newer.date) && older.date != newer.date
    ensures |FilteredRecords([older, newer], "", false)| == 2
    ensures FilteredRecords([older, newer], "", false)[0] == newer
  {
    var rs := [older, newer];
    EmptySearchListsAll(rs, false);
    var r := FilteredRecords(rs, "", false);
    assert |r| == 2 by {
      assert |multiset(r)| == |multiset(rs)|;
    }
    assert r[0] in multiset(r) && r[1] in multiset(r);
    if r[0] != newer {
      assert r[0] == older;
      assert r[1] == newer by {
        assert multiset(r) == multiset{r[0], r[1]} by { assert r == [r[0], r[1]]; }
      }
      assert InOrder(RecordDate(r[0]), RecordDate(r[1]), false);
      LexLeAntisym(older.date, newer.date);
    }
  }

  /**
   * Two records stored oldest first and the default descending sort: the
   * first row shows the newer record, but its edit button opens the older one.
   */
  lemma EditOpensAnotherRecord()
    ensures
      var older := MedicalRecord("2025-01-10", "Flu", [BlankPrescription], "");
      var newer := MedicalRecord("2025-03-02", "Cold", [BlankPrescription], "");
      |FilteredRecords([older, newer], "", false)| == 2 &&
      FilteredRecords([older, newer], "", false)[0] == newer &&
      EditedRecordAsWritten([older, newer], 0) == older != newer
  {
    var older := MedicalRecord("2025-01-10", "Flu", [BlankPrescription], "");
    var newer := MedicalRecord("2025-03-02", "Cold", [BlankPrescription], "");
    LexLeAt(older.date, newer.date, 6);
    NewerOnFirstRow(older, newer);
  }

  /**
   * With the search box empty and the records stored in the table's order,
   * the table is the stored list, so the row index opens the very record the
   * row shows: the page as written and `RowRecord` then pick the same record.
   */
  lemma AsWrittenMatchesRowWhenSorted(records: seq<MedicalRecord>, asc: bool, row: nat)
    requires Sorted(records, RecordDate, asc) && row < |records|
    ensures FilteredRecords(records, "", asc) == records
    ensures EditedRecordAsWritten(records, row) == FilteredRecords(records, "", asc)[row]
    ensures EditedRecordAsWritten(records, row) == records[RowRecord(records, "", asc, row)]
  {
    EmptySearchListsAll(records, asc);
    SortSortedIsIdentity(records, RecordDate, asc);
  }

  // ---------------------------------------------------------------------
  // The record form

  /** One field of a prescription line. */
  function FieldOf(p: Prescription, f: Field): string
  {
    match f
    case Title => p.title
    case Brand => p.brand
    case StrengthValue => p.strengthValue
    case StrengthUnit => p.strengthUnit
    case Dosage => p.dosage
    case DurationValue => p.durationValue
    case DurationUnit => p.durationUnit
    case Frequency => p.frequency
  }

  /** `updated[index][field] = value` on one line: that field changes and every other stays. */
  function SetField(p: Prescription, f: Field, v: string): (r: Prescription)
    ensures FieldOf(r, f) == v
    ensures forall g :: g != f ==> FieldOf(r, g) == FieldOf(p, g)
  {
    match f
    case Title => p.(title := v)
    case Brand => p.(brand := v)
    case StrengthValue => p.(strengthValue := v)
    case StrengthUnit => p.(strengthUnit := v)
    case Dosage => p.(dosage := v)
    case DurationValue => p.(durationValue := v)
    case DurationUnit => p.(durationUnit := v)
    case Frequency => p.(frequency := v)
  }

  /** `splice(i, 1)`: element `i` leaves, the others keep their order. */
  function RemoveAt<T>(s: seq<T>, i: nat): (r: seq<T>)
    requires i < |s|
    ensures |r| == |s| - 1
    ensures forall j :: 0 <= j < i ==> r[j] == s[j]
    ensures forall j :: i <= j < |r| ==> r[j] == s[j + 1]
    ensures multiset(r) + multiset{s[i]} == multiset(s)
  {
    assert s == s[..i] + [s[i]] + s[i + 1..];
    s[..i] + s[i + 1..]
  }

  /**
   * The record `handleSavePrescription` writes: the draft's date and
   * diagnosis, the draft's first line at `pi`, the other lines and the
   * doctor email of `rec` as they were. A `pi` past the record's lines puts
   * the line at the end.
   */
  function SavedRecord(rec: MedicalRecord, pi: nat, draft: MedicalRecord): (r: MedicalRecord)
    requires |draft.prescriptions| >= 1
    ensures r.date == draft.date && r.diagnosis == draft.diagnosis && r.doctorEmail == rec.doctorEmail
    ensures pi < |rec.prescriptions| ==>
      |r.prescriptions| == |rec.prescriptions| && r.prescriptions[pi] == draft.prescriptions[0]
    ensures pi >= |rec.prescriptions| ==> r.prescriptions == rec.prescriptions + [draft.prescriptions[0]]
    ensures forall j :: 0 <= j < |rec.prescriptions| && j != pi ==> r.prescriptions[j] == rec.prescriptions[j]
  {
    var lines := if pi < |rec.prescriptions| then rec.prescriptions[pi := draft.prescriptions[0]]
                 else rec.prescriptions + [draft.prescriptions[0]];
    rec.(date := draft.date, diagnosis := draft.diagnosis, prescriptions := lines)
  }

  /** `{ ...undefined }`: the copy of a line the record does not have, every field read as empty. */
  const EmptyLine := Prescription("", "", "", "", "", "", "", "")

  /**
   * The draft `handleEditPrescription` opens: the record's date and diagnosis
   * and a copy of line `pi`, or an empty line when the record has no line
   * `pi`. Saving a copied line unchanged gives back the record.
   */
  function EditDraft(rec: MedicalRecord, pi: nat): (d: MedicalRecord)
    ensures |d.prescriptions| == 1 && d.date == rec.date && d.diagnosis == rec.diagnosis
    ensures pi < |rec.prescriptions| ==> d.prescriptions[0] == rec.prescriptions[pi] && SavedRecord(rec, pi, d) == rec
    ensures pi >= |rec.prescriptions| ==> d.prescriptions[0] == EmptyLine
  {
    if pi < |rec.prescriptions| then
      assert rec.prescriptions[pi := rec.prescriptions[pi]] == rec.prescriptions;
      MedicalRecord(rec.date, rec.diagnosis, [rec.prescriptions[pi]], "")
    else MedicalRecord(rec.date, rec.diagnosis, [EmptyLine], "")
  }

  /** A save reads only the draft's first line: lines added to an edit draft are dropped. */
  lemma SaveReadsFirstLineOnly(rec: MedicalRecord, pi: nat, draft: MedicalRecord, extra: seq<Prescription>)
    requires |draft.prescriptions| >= 1
    ensures SavedRecord(rec, pi, draft.(prescriptions := draft.prescriptions + extra)) == SavedRecord(rec, pi, draft)
  {
    assert (draft.prescriptions + extra)[0] == draft.prescriptions[0];
  }

  /** "Add Another Prescription" as written: shown when `!editingPrescription.recordIndex`. */
  function AddPrescriptionShownAsWritten(editing: Option<EditTarget>): bool
  {
    editing.None? || editing.value.recordIndex == 0
  }

  /** "Add Another Prescription" as the form's other tests read it: only when no edit is open. */
  function AddPrescriptionShown(editing: Option<EditTarget>): (r: bool)
    ensures r <==> editing.None?
    ensures r ==> AddPrescriptionShownAsWritten(editing)
  {
    editing.None?
  }

  /** Index 0 is falsy: the two tests differ exactly while an edit of the first record is open. */
  lemma AddShownOnlyAsWritten(editing: Option<EditTarget>)
    ensures AddPrescriptionShownAsWritten(editing) && !AddPrescriptionShown(editing) <==>
      editing.Some? && editing.value.recordIndex == 0
  {
  }

  // ---------------------------------------------------------------------
  // Writing records

  /** `prev.map(...)` of `handleAddRecord`: the entries of `email` get `rec` at the end. */
  function AppendRecordTo(view: seq<PatientEntry>, email: string, rec: MedicalRecord): (r: seq<PatientEntry>)
    ensures |r| == |view|
    ensures forall i :: 0 <= i < |view| ==> r[i].patient == view[i].patient
    ensures forall i :: 0 <= i < |view| && Named(view[i], email) ==> r[i].records == view[i].records + [rec]
    ensures forall i :: 0 <= i < |view| && !Named(view[i], email) ==> r[i] == view[i]
  {
    seq(|view|, i requires 0 <= i < |view| =>
      if Named(view[i], email) then view[i].(records := view[i].records + [rec]) else view[i])
  }

  /** `prev.map(...)` of `handleSavePrescription`: the entries of `email` get `records`. */
  function ReplaceRecordsOf(view: seq<PatientEntry>, email: string, records: seq<MedicalRecord>): (r: seq<PatientEntry>)
    ensures |r| == |view|
    ensures forall i :: 0 <= i < |view| ==> r[i].patient == view[i].patient
    ensures forall i :: 0 <= i < |view| && Named(view[i], email) ==> r[i].records == records
    ensures forall i :: 0 <= i < |view| && !Named(view[i], email) ==> r[i] == view[i]
  {
    seq(|view|, i requires 0 <= i < |view| =>
      if Named(view[i], email) then view[i].(records := records) else view[i])
  }

  /**
   * The shared list after `handleAddRecord`: the first entry of `email`
   * gains `rec` at the end, or a new entry `{email, [rec]}` is pushed. Looked
   * up by any other email the list is as before.
   */
  function StoreAdd(store: seq<HistoryEntry>, email: string, rec: MedicalRecord): (r: seq<HistoryEntry>)
    ensures |store| <= |r|
    ensures FindHistory(r, email).Some?
    ensures FindHistory(store, email).Some? ==>
      FindHistory(r, email) == FindHistory(store, email) &&
      r[FindHistory(r, email).value].records == store[FindHistory(store, email).value].records + [rec]
    ensures FindHistory(store, email).None? ==> r[FindHistory(r, email).value].records == [rec]
    ensures forall e :: e != email ==> FindHistory(r, e) == FindHistory(store, e)
    ensures forall j :: 0 <= j < |store| && store[j].patientEmail != email ==> r[j] == store[j]
    // only the first entry of `email` is touched, or exactly one entry is pushed
    ensures |r| == |store| + (if FindHistory(store, email).None? then 1 else 0)
    ensures forall j :: 0 <= j < |store| && (FindHistory(store, email).None? || FindHistory(store, email).value != j) ==>
      r[j] == store[j]
    ensures FindHistory(store, email).None? ==> r[|store|] == HistoryEntry(email, [rec])
  {
    match FindHistory(store, email)
    case Some(j) =>
      var r := store[j := store[j].(records := store[j].records + [rec])];
      forall e ensures FindHistory(r, e) == FindHistory(store, e) {
        FindHistorySame(r, store, e);
      }
      r
    case None =>
      var r := store + [HistoryEntry(email, [rec])];
      assert r[..|store|] == store;
      forall e ensures e != email ==> FindHistory(r, e) == FindHistory(store, e) {
        FindIndexExtended(store, r, (h: HistoryEntry) => h.patientEmail == e);
      }
      FindIndexExtended(store, r, (h: HistoryEntry) => h.patientEmail == email);
      r
  }

  /**
   * The shared list after `handleSavePrescription`: when `email` has an entry
   * holding a record at `ri`, that record becomes `rec`. Looked up by any
   * other email the list is as before.
   */
  function StoreReplace(store: seq<HistoryEntry>, email: string, ri: nat, rec: MedicalRecord): (r: seq<HistoryEntry>)
    ensures |r| == |store|
    ensures forall e :: FindHistory(r, e) == FindHistory(store, e)
    ensures FindHistory(store, email).Some? && ri < |store[FindHistory(store, email).value].records| ==>
      r[FindHistory(store, email).value].records == store[FindHistory(store, email).value].records[ri := rec]
    ensures forall j :: 0 <= j < |store| && store[j].patientEmail != email ==> r[j] == store[j]
    ensures forall j :: 0 <= j < |store| && (FindHistory(store, email).None? || FindHistory(store, email).value != j) ==>
      r[j] == store[j]
    // no entry of `email`, or no record at `ri` in it: the list is as before
    ensures FindHistory(store, email).None? ==> r == store
    ensures FindHistory(store, email).Some? && ri >= |store[FindHistory(store, email).value].records| ==> r == store
  {
    match FindHistory(store, email)
    case Some(j) =>
      if ri < |store[j].records| then
        var r := store[j := store[j].(records := store[j].records[ri := rec])];
        forall e ensures FindHistory(r, e) == FindHistory(store, e) {
          FindHistorySame(r, store, e);
        }
        r
      else store
    case None => store
  }

  /**
   * Each page entry of a patient holds the same records as that patient's
   * first entry in the shared list.
   */
  ghost predicate Synced(view: seq<PatientEntry>, store: seq<HistoryEntry>)
  {
    forall i :: 0 <= i < |view| && view[i].patient.Some? ==>
      && FindHistory(store, view[i].patient.value.email).Some?
      && store[FindHistory(store, view[i].patient.value.email).value].records == view[i].records
  }

  /** No two shared entries have the same email. */
  ghost predicate DistinctEmails(store: seq<HistoryEntry>)
  {
    forall j, k :: 0 <= j < k < |store| ==> store[j].patientEmail != store[k].patientEmail
  }

  /** The mount's list starts in step with a shared list whose emails are distinct. */
  lemma LoadedSynced(appointments: seq<Appointment>, store: seq<HistoryEntry>, patients: seq<Patient>, email: string)
    requires DistinctEmails(store)
    ensures Synced(LoadHistories(appointments, store, patients, email), store)
  {
    var view := LoadHistories(appointments, store, patients, email);
    forall i | 0 <= i < |view| && view[i].patient.Some?
      ensures FindHistory(store, view[i].patient.value.email).Some?
      ensures store[FindHistory(store, view[i].patient.value.email).value].records == view[i].records
    {
      var own := OwnHistories(store, DoctorPatients(appointments, email));
      assert view[i] == EntryFor(patients, own[i]) && own[i] in own;
      var k :| 0 <= k < |store| && store[k] == own[i];
      var e := view[i].patient.value.email;
      assert store[k].patientEmail == e;
    }
  }

  /** Adding a record to a patient of the page keeps the page and the shared list in step. */
  lemma AddKeepsSynced(view: seq<PatientEntry>, store: seq<HistoryEntry>, email: string, rec: MedicalRecord)
    requires Synced(view, store) && SelectedIn(view, email).Some?
    ensures Synced(AppendRecordTo(view, email, rec), StoreAdd(store, email, rec))
  {
    var v', s' := AppendRecordTo(view, email, rec), StoreAdd(store, email, rec);
    assert FindHistory(store, email).Some? by {
      assert view[SelectedIn(view, email).value].patient.Some?;
    }
    forall i | 0 <= i < |v'| && v'[i].patient.Some?
      ensures FindHistory(s', v'[i].patient.value.email).Some?
      ensures s'[FindHistory(s', v'[i].patient.value.email).value].records == v'[i].records
    {
      assert view[i].patient.Some?;
    }
  }

  /** Saving a record of a patient of the page keeps the page and the shared list in step. */
  lemma SaveKeepsSynced(view: seq<PatientEntry>, store: seq<HistoryEntry>, email: string,
                        records: seq<MedicalRecord>, ri: nat, rec: MedicalRecord,
                        view': seq<PatientEntry>, store': seq<HistoryEntry>)
    requires SelectedIn(view, email).Some?
    requires records == view[SelectedIn(view, email).value].records && ri < |records|
    requires view' == ReplaceRecordsOf(view, email, records[ri := rec]) && store' == StoreReplace(store, email, ri, rec)
    ensures Synced(view, store) ==> Synced(view', store')
  {
    if Synced(view, store) {
      var s := SelectedIn(view, email).value;
      assert view[s].patient.Some?;
      var j := FindHistory(store, email).value;
      assert store[j].records == records;
      forall i | 0 <= i < |view'| && view'[i].patient.Some?
        ensures FindHistory(store', view'[i].patient.value.email).Some?
        ensures store'[FindHistory(store', view'[i].patient.value.email).value].records == view'[i].records
      {
        assert view[i].patient.Some?;
        var e := view[i].patient.value.email;
        if e != email {
          var k := FindHistory(store, e).value;
          assert store[k].patientEmail != email;
        }
      }
    }
  }

  // ---------------------------------------------------------------------
  // The page invariant

  /** The record an open edit points at exists. */
  ghost predicate EditInRange(view: seq<PatientEntry>, email: string, editing: Option<EditTarget>)
  {
    editing.Some? ==>
      && SelectedIn(view, email).Some?
      && editing.value.recordIndex < |view[SelectedIn(view, email).value].records|
  }

  /**
   * The draft has a line; the sort order is one of the two; past the list
   * screen a doctor is logged in and a patient of the page is selected; an
   * open edit is on the form and points at a record of that patient.
   */
  ghost predicate PageState(doctor: Option<Doctor>, view: seq<PatientEntry>, email: string, screen: Screen,
                            draft: MedicalRecord, sortOrder: string, editing: Option<EditTarget>)
  {
    && |draft.prescriptions| >= 1
    && (sortOrder == "asc" || sortOrder == "desc")
    && (screen != PatientList ==> doctor.Some? && SelectedIn(view, email).Some?)
    && (editing.Some? ==> screen == RecordForm)
    && EditInRange(view, email, editing)
  }

  // ---------------------------------------------------------------------
  // The page

  class DetailsView {
    var doctor: Option<Doctor>
    var histories: seq<PatientEntry>
    /** The shared `patientHistories` list the page writes into. */
    var store: seq<HistoryEntry>
    var screen: Screen
    var selectedEmail: string
    var draft: MedicalRecord
    var patientSearch: string
    var historySearch: string
    var sortOrder: string
    var editing: Option<EditTarget>

    /** `selectedPatient`, as an index into `histories`. */
    function Selected(): Option<nat>
      reads this`histories, this`selectedEmail
    {
      SelectedIn(histories, selectedEmail)
    }

    function Cards(): seq<PatientEntry>
      reads this`histories, this`patientSearch
    {
      PatientCards(histories, patientSearch)
    }

    /** The records of the history table (none while no patient is selected). */
    function Rows(): seq<MedicalRecord>
      reads this`histories, this`selectedEmail, this`historySearch, this`sortOrder
    {
      match Selected()
      case None => []
      case Some(s) => FilteredRecords(histories[s].records, historySearch, sortOrder == "asc")
    }

    /** The page invariant, over the fields it reads. */
    ghost predicate Valid()
      reads this
    {
      PageState(doctor, histories, selectedEmail, screen, draft, sortOrder, editing)
    }

    /** Mount: without a stored user email nothing is loaded. */
    constructor (doctors: seq<Doctor>, patients: seq<Patient>, appointments: seq<Appointment>,
                 store: seq<HistoryEntry>, userEmail: Option<string>, today: string)
      ensures Valid()
      ensures screen == PatientList && selectedEmail == "" && draft == EmptyRecord(today)
      ensures patientSearch == "" && historySearch == "" && sortOrder == "desc" && editing.None?
      ensures this.store == store
      ensures userEmail.None? || userEmail.value == "" ==> doctor.None? && histories == []
      ensures userEmail.Some? && userEmail.value != "" ==>
        && doctor == FindDoctor(doctors, userEmail.value)
        && histories == LoadHistories(appointments, store, patients, userEmail.value)
      ensures DistinctEmails(store) ==> Synced(histories, store)
    {
      this.store := store;
      screen, selectedEmail, draft := PatientList, "", EmptyRecord(today);
      patientSearch, historySearch, sortOrder, editing := "", "", "desc", None;
      if userEmail.None? || userEmail.value == "" {
        doctor, histories := None, [];
      } else {
        doctor := FindDoctor(doctors, userEmail.value);
        histories := LoadHistories(appointments, store, patients, userEmail.value);
        if DistinctEmails(store) {
          LoadedSynced(appointments, store, patients, userEmail.value);
        }
      }
    }

    /** The patient search box (and its Clear button with ""). */
    method SetPatientSearch(s: string)
      requires Valid()
      modifies this`patientSearch
      ensures Valid() && patientSearch == s
    {
      patientSearch := s;
    }

    /** A click on a patient card: that patient's history screen. */
    method SelectPatient(email: string)
      requires Valid() && screen == PatientList && doctor.Some?
      requires exists i :: 0 <= i < |Cards()| && Named(Cards()[i], email)
      modifies this`selectedEmail, this`screen
      ensures Valid()
      ensures selectedEmail == email && screen == HistoryPage
      ensures Selected().Some? && histories[Selected().value].patient.value.email == email
    {
      var i :| 0 <= i < |Cards()| && Named(Cards()[i], email);
      assert Cards()[i] in histories;
      selectedEmail := email;
      screen := HistoryPage;
    }

    /** `handleBack(page)`: that screen, a fresh empty draft and no open edit. */
    method HandleBack(target: Screen, today: string)
      requires Valid() && screen != PatientList && target != RecordForm
      modifies this`screen, this`draft, this`editing
      ensures Valid()
      ensures screen == target && draft == EmptyRecord(today) && editing.None?
    {
      screen := target;
      draft := EmptyRecord(today);
      editing := None;
    }

    method SetHistorySearch(s: string)
      requires Valid()
      modifies this`historySearch
      ensures Valid() && historySearch == s
    {
      historySearch := s;
    }

    /** The sort button: the same records in the other direction. */
    method ToggleSort()
      requires Valid()
      modifies this`sortOrder
      ensures Valid()
      ensures sortOrder == (if old(sortOrder) == "asc" then "desc" else "asc")
      ensures multiset(Rows()) == multiset(old(Rows()))
    {
      sortOrder := if sortOrder == "asc" then "desc" else "asc";
    }

    /** "Add New Record": an empty draft on the form, with no edit open. */
    method StartNewRecord(today: string)
      requires Valid() && screen == HistoryPage
      modifies this`draft, this`screen
      ensures Valid()
      ensures draft == EmptyRecord(today) && screen == RecordForm && editing.None?
    {
      draft := EmptyRecord(today);
      screen := RecordForm;
    }

    /**
     * The edit button of line `pi` of table row `row`: the edit points at
     * record `row` and line `pi` of the stored list, and the form opens on
     * that record's date, diagnosis and line.
     */
    method HandleEditPrescription(row: nat, pi: nat)
      requires Valid() && screen == HistoryPage
      requires row < |Rows()| && pi < |Rows()[row].prescriptions|
      modifies this`editing, this`draft, this`screen
      ensures Valid()
      ensures screen == RecordForm && editing == Some(EditTarget(row, pi))
      ensures
        var records := histories[SelectedIn(histories, selectedEmail).value].records;
        row < |records| && draft == EditDraft(EditedRecordAsWritten(records, row), pi)
    {
      var records := histories[SelectedIn(histories, selectedEmail).value].records;
      ShowForm(EditDraft(EditedRecordAsWritten(records, row), pi), Some(EditTarget(row, pi)));
    }

    /** The record form on the draft `d`, with the edit `t` open (none for a new record). */
    method ShowForm(d: MedicalRecord, t: Option<EditTarget>)
      requires Valid() && screen != PatientList
      requires |d.prescriptions| >= 1
      requires EditInRange(histories, selectedEmail, t)
      modifies this`screen, this`draft, this`editing
      ensures Valid() && screen == RecordForm && draft == d && editing == t
    {
      screen, draft, editing := RecordForm, d, t;
    }

    method SetDraftDate(d: string)
      requires Valid() && screen == RecordForm
      modifies this`draft
      ensures Valid() && draft == old(draft).(date := d)
    {
      draft := draft.(date := d);
    }

    method SetDraftDiagnosis(d: string)
      requires Valid() && screen == RecordForm
      modifies this`draft
      ensures Valid() && draft == old(draft).(diagnosis := d)
    {
      draft := draft.(diagnosis := d);
    }

    /** "Add Another Prescription": a blank line at the end of the draft. */
    method HandleAddPrescription()
      requires Valid() && screen == RecordForm && AddPrescriptionShownAsWritten(editing)
      modifies this`draft
      ensures Valid()
      ensures draft == old(draft).(prescriptions := old(draft).prescriptions + [BlankPrescription])
    {
      draft := draft.(prescriptions := draft.prescriptions + [BlankPrescription]);
    }

    /** `handlePrescriptionChange(index, field, value)`: one field of one line. */
    method HandlePrescriptionChange(index: nat, f: Field, v: string)
      requires Valid() && screen == RecordForm && index < |draft.prescriptions|
      modifies this`draft
      ensures Valid()
      ensures draft == old(draft).(prescriptions := old(draft).prescriptions[index := SetField(old(draft).prescriptions[index], f, v)])
    {
      draft := draft.(prescriptions := draft.prescriptions[index := SetField(draft.prescriptions[index], f, v)]);
    }

    /** `handleRemovePrescription(index)`, offered only while the draft has more than one line. */
    method HandleRemovePrescription(index: nat)
      requires Valid() && screen == RecordForm && |draft.prescriptions| > 1 && index < |draft.prescriptions|
      modifies this`draft
      ensures Valid()
      ensures draft == old(draft).(prescriptions := RemoveAt(old(draft).prescriptions, index))
    {
      draft := draft.(prescriptions := RemoveAt(draft.prescriptions, index));
    }

    /**
     * `handleAddRecord`: without a diagnosis only the error is shown;
     * otherwise the draft is appended to the selected patient's records on
     * the page and in the shared list, and the history screen comes back.
     */
    method HandleAddRecord(today: string) returns (alert: string)
      requires Valid() && screen == RecordForm && editing.None?
      modifies this`histories, this`store, this`screen, this`draft, this`editing
      ensures Valid()
      ensures old(draft).diagnosis == "" ==>
        alert == MissingDiagnosis && histories == old(histories) && store == old(store) &&
        screen == old(screen) && draft == old(draft) && editing.None?
      ensures old(draft).diagnosis != "" ==>
        && alert == RecordAdded
        && histories == AppendRecordTo(old(histories), selectedEmail, old(draft))
        && store == StoreAdd(old(store), selectedEmail, old(draft))
        && SelectedIn(histories, selectedEmail) == SelectedIn(old(histories), selectedEmail)
        && screen == HistoryPage && draft == EmptyRecord(today) && editing.None?
      ensures old(Synced(histories, store)) ==> Synced(histories, store)
    {
      if draft.diagnosis == "" {
        alert := MissingDiagnosis;
        return;
      }
      var rec := draft;
      var view, shared := AppendRecordTo(histories, selectedEmail, rec), StoreAdd(store, selectedEmail, rec);
      if Synced(histories, store) {
        AddKeepsSynced(histories, store, selectedEmail, rec);
      }
      SelectedSame(view, histories, selectedEmail);
      ShowHistory(view, shared, today);
      alert := RecordAdded;
    }

    /**
     * `handleSavePrescription`: the edited record takes the draft's date,
     * diagnosis and line, on the page and in the shared list, and the
     * history screen comes back with no edit open.
     */
    method HandleSavePrescription(today: string) returns (alert: string)
      requires Valid() && screen == RecordForm && editing.Some?
      modifies this`histories, this`store, this`screen, this`draft, this`editing
      ensures Valid()
      ensures alert == PrescriptionSaved
      ensures SelectedIn(histories, selectedEmail) == SelectedIn(old(histories), selectedEmail)
      ensures
        var records := old(histories)[SelectedIn(old(histories), selectedEmail).value].records;
        var ri := old(editing).value.recordIndex;
        var rec := SavedRecord(records[ri], old(editing).value.prescriptionIndex, old(draft));
        && histories == ReplaceRecordsOf(old(histories), selectedEmail, records[ri := rec])
        && store == StoreReplace(old(store), selectedEmail, ri, rec)
      ensures screen == HistoryPage && draft == EmptyRecord(today) && editing.None?
      ensures old(Synced(histories, store)) ==> Synced(histories, store)
    {
      var records := histories[SelectedIn(histories, selectedEmail).value].records;
      var ri, pi := editing.value.recordIndex, editing.value.prescriptionIndex;
      var rec := SavedRecord(records[ri], pi, draft);
      var view, shared := ReplaceRecordsOf(histories, selectedEmail, records[ri := rec]),
                          StoreReplace(store, selectedEmail, ri, rec);
      SaveKeepsSynced(histories, store, selectedEmail, records, ri, rec, view, shared);
      SelectedSame(view, histories, selectedEmail);
      ShowHistory(view, shared, today);
      alert := PrescriptionSaved;
    }

    /**
     * The state a saved add or edit leaves: the written lists, the history
     * screen, a fresh draft and no open edit.
     */
    method ShowHistory(view: seq<PatientEntry>, shared: seq<HistoryEntry>, today: string)
      requires doctor.Some? && SelectedIn(view, selectedEmail).Some? && (sortOrder == "asc" || sortOrder == "desc")
      modifies this`histories, this`store, this`screen, this`draft, this`editing
      ensures Valid()
      ensures histories == view && store == shared && screen == HistoryPage && draft == EmptyRecord(today) && editing.None?
    {
      histories, store, screen, draft, editing := view, shared, HistoryPage, EmptyRecord(today), None;
    }
  }
}
