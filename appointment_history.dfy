/**
 * The patient's medical history (AppointmentHistory.jsx): the records of the
 * patient's history entry, newest first, a search by doctor name or date, a
 * date sort whose direction toggles (descending at first), and pages of four.
 */
module AppointmentHistory {
  import opened Common
  import opened Sorting
  import Paging

  const ItemsPerPage: nat := 4

  /**
   * The loaded history: the records of the first entry for `email`, sorted
   * newest first, or nothing when the patient has no entry.
   */
  function LoadHistory(histories: seq<HistoryEntry>, email: string): (r: seq<MedicalRecord>)
    ensures Sorted(r, RecordDate, false)
    ensures FindHistory(histories, email).None? ==> r == []
    ensures FindHistory(histories, email).Some? ==>
      multiset(r) == multiset(histories[FindHistory(histories, email).value].records)
  {
    match FindHistory(histories, email)
    case Some(i) => SortByDate(histories[i].records, RecordDate, false)
    case None => []
  }

  /** `getDoctorName`: the doctor's name, or the email itself when no doctor has it. */
  function GetDoctorName(doctors: seq<Doctor>, email: string): (r: string)
    ensures (forall d :: d in doctors ==> d.email != email) ==> r == email
    ensures (exists d :: d in doctors && d.email == email) ==>
              exists d :: d in doctors && d.email == email && r == d.name
  {
    DoctorName(doctors, email, email)
  }

  /** The search test of one record: doctor name or date. */
  predicate RecordHit(doctors: seq<Doctor>, search: string, r: MedicalRecord)
  {
    MatchesSearch(GetDoctorName(doctors, r.doctorEmail), r.date, search)
  }

  function Hits(history: seq<MedicalRecord>, doctors: seq<Doctor>, search: string): seq<MedicalRecord>
  {
    Filter(history, (r: MedicalRecord) => RecordHit(doctors, search, r))
  }

  /**
   * `filteredHistory`: the records the search keeps, ascending by date when
   * `sortAsc` and descending otherwise; a reordering of part of the history.
   */
  function FilteredHistory(history: seq<MedicalRecord>, doctors: seq<Doctor>, search: string, sortAsc: bool)
    : (r: seq<MedicalRecord>)
    ensures Sorted(r, RecordDate, sortAsc)
    ensures forall x :: x in r <==> x in history && RecordHit(doctors, search, x)
    ensures multiset(r) == multiset(Hits(history, doctors, search)) <= multiset(history)
    ensures forall x :: multiset(r)[x] == if RecordHit(doctors, search, x) then multiset(history)[x] else 0
  {
    var h := Hits(history, doctors, search);
    FilterMultiset(history, (r: MedicalRecord) => RecordHit(doctors, search, r));
    var r := SortByDate(h, RecordDate, sortAsc);
    forall x ensures x in r <==> x in history && RecordHit(doctors, search, x) {
      assert x in r <==> x in multiset(r);
      FilterMembership(history, (r: MedicalRecord) => RecordHit(doctors, search, r), x);
    }
    r
  }

  /**
   * The loaded history is already newest first, so in the initial
   * descending order the view shows the search's hits in their loaded order.
   */
  lemma DescendingKeepsLoadedOrder(history: seq<MedicalRecord>, doctors: seq<Doctor>, search: string)
    requires Sorted(history, RecordDate, false)
    ensures FilteredHistory(history, doctors, search, false) == Hits(history, doctors, search)
  {
    FilterSorted(history, (r: MedicalRecord) => RecordHit(doctors, search, r), RecordDate, false);
    SortSortedIsIdentity(Hits(history, doctors, search), RecordDate, false);
  }

  class HistoryView {
    const doctors: seq<Doctor>
    var patient: Option<Patient>
    var history: seq<MedicalRecord>
    var search: string
    var currentPage: int
    var sortAsc: bool

    function Shown(): seq<MedicalRecord>
      reads this
    {
      FilteredHistory(history, doctors, search, sortAsc)
    }

    function TotalPages(): nat
      reads this
    {
      Paging.TotalPages(|Shown()|, ItemsPerPage)
    }

    function CurrentRecords(): (r: seq<MedicalRecord>)
      reads this
      ensures |r| <= ItemsPerPage
    {
      Paging.Page(Shown(), currentPage, ItemsPerPage)
    }

    /** The page is at least 1 (the search keeps it, so it may lie past the last page). */
    ghost predicate Valid()
      reads this
    {
      1 <= currentPage
    }

    /** Mount: without a stored user email nothing is loaded. */
    constructor (doctors: seq<Doctor>, patients: seq<Patient>, histories: seq<HistoryEntry>, userEmail: Option<string>)
      ensures Valid()
      ensures this.doctors == doctors && search == "" && currentPage == 1 && !sortAsc
      ensures userEmail.None? || userEmail.value == "" ==> patient.None? && history == []
      ensures userEmail.Some? && userEmail.value != "" ==>
        patient == FindPatient(patients, userEmail.value) && history == LoadHistory(histories, userEmail.value)
    {
      this.doctors := doctors;
      search, currentPage, sortAsc := "", 1, false;
      if userEmail.None? || userEmail.value == "" {
        patient, history := None, [];
      } else {
        patient := FindPatient(patients, userEmail.value);
        history := LoadHistory(histories, userEmail.value);
      }
    }

    /** `toggleSort`: flips the direction; the shown records stay the same ones, re-sorted. */
    method ToggleSort()
      requires Valid()
      modifies this`sortAsc
      ensures Valid()
      ensures sortAsc == !old(sortAsc)
      ensures multiset(Shown()) == multiset(old(Shown()))
    {
      sortAsc := !sortAsc;
    }

    /** The search box; the page is kept as it is. */
    method SetSearch(s: string)
      requires Valid()
      modifies this`search
      ensures Valid() && search == s
    {
      search := s;
    }

    /** `handlePageChange(page)`: only a page in 1..totalPages is taken. */
    method HandlePageChange(page: int)
      requires Valid()
      modifies this`currentPage
      ensures Valid()
      ensures currentPage == Paging.ChangePage(old(currentPage), page, TotalPages())
    {
      if page >= 1 && page <= TotalPages() {
        currentPage := page;
      }
    }
  }
}
