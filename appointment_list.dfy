/**
 * The doctor's triage list (AppointmentList.jsx): the logged-in doctor's
 * Pending appointments, a confirm / decline action per row, a search by
 * patient name or date, a date sort whose direction toggles, and pages of
 * five records.
 */
module AppointmentList {
  import opened Common
  import opened Sorting
  import Paging

  const ItemsPerPage: nat := 5
  const UnknownPatient := "Unknown"

  /** The initial list: the appointments of doctor `email` whose status is exactly "Pending". */
  function PendingFor(all: seq<Appointment>, email: string): (r: seq<Appointment>)
    ensures forall a :: a in r <==> a in all && a.doctorEmail == email && a.status == "Pending"
    ensures Subsequence(r, all)
    ensures forall a :: multiset(r)[a] == if a.doctorEmail == email && a.status == "Pending" then multiset(all)[a] else 0
  {
    var p := (a: Appointment) => a.doctorEmail == email && a.status == "Pending";
    forall a ensures a in Filter(all, p) <==> a in all && p(a) {
      FilterMembership(all, p, a);
    }
    FilterMultiset(all, p);
    Filter(all, p)
  }

  /** The status a confirmed action writes: "confirm" gives "Confirmed", any other action "Declined". */
  function ActionStatus(action: string): (s: string)
    ensures s == "Confirmed" <==> action == "confirm"
    ensures s == "Declined" <==> action != "confirm"
  {
    if action == "confirm" then "Confirmed" else "Declined"
  }

  /** Confirm and Decline are offered on a row only while it is Pending. */
  predicate ActionsOffered(a: Appointment)
  {
    a.status == "Pending"
  }

  /** The search test of one row: patient name (or "Unknown") or date. */
  predicate SearchHit(patients: seq<Patient>, search: string, a: Appointment)
  {
    MatchesSearch(PatientName(patients, a.patientEmail, UnknownPatient), a.date, search)
  }

  /** The rows the search keeps, in list order. */
  function Hits(xs: seq<Appointment>, patients: seq<Patient>, search: string): seq<Appointment>
  {
    Filter(xs, (a: Appointment) => SearchHit(patients, search, a))
  }

  /**
   * `filteredAppointments`: the rows the search keeps, sorted by date,
   * ascending when `asc` and descending otherwise.
   */
  function Visible(xs: seq<Appointment>, patients: seq<Patient>, search: string, asc: bool): (r: seq<Appointment>)
    ensures Sorted(r, DateOf, asc)
    ensures multiset(r) == multiset(Hits(xs, patients, search))
    ensures |r| == |Hits(xs, patients, search)|
    ensures forall a :: a in r <==> a in xs && SearchHit(patients, search, a)
    ensures forall a :: multiset(r)[a] == if SearchHit(patients, search, a) then multiset(xs)[a] else 0
  {
    var h := Hits(xs, patients, search);
    FilterMultiset(xs, (a: Appointment) => SearchHit(patients, search, a));
    var r := SortByDate(h, DateOf, asc);
    forall a ensures a in r <==> a in xs && SearchHit(patients, search, a) {
      assert a in r <==> a in multiset(r);
      FilterMembership(xs, (a: Appointment) => SearchHit(patients, search, a), a);
    }
    r
  }

  /** A status change keeps the number of rows the search keeps: the search reads only email and date. */
  lemma HitsIgnoreStatus(xs: seq<Appointment>, patients: seq<Patient>, search: string, id: int, s: string)
    ensures |Hits(SetStatus(xs, id, s), patients, search)| == |Hits(xs, patients, search)|
  {
    var ys := SetStatus(xs, id, s);
    FilterSameLength(ys, xs, (a: Appointment) => SearchHit(patients, search, a));
  }

  /**
   * Triage writes "Confirmed", which the status counters of the other views
   * never test (they count "Confirm"): no triage raises the "Confirm" count.
   */
  lemma TriageNeverCountsAsConfirm(xs: seq<Appointment>, id: int, action: string)
    ensures CountStatus(SetStatus(xs, id, ActionStatus(action)), "Confirm") <= CountStatus(xs, "Confirm")
  {
    SetStatusCountOther(xs, id, ActionStatus(action), "Confirm");
  }

  class PendingView {
    const patients: seq<Patient>
    var doctor: Option<Doctor>
    var myAppointments: seq<Appointment>
    var search: string
    var sortOrder: string
    var currentPage: int

    /** The rows after search and sort. */
    function Shown(): seq<Appointment>
      reads this
    {
      Visible(myAppointments, patients, search, sortOrder == "asc")
    }

    function TotalPages(): nat
      reads this
    {
      Paging.TotalPages(|Shown()|, ItemsPerPage)
    }

    /** The rows of the current page. */
    function CurrentRecords(): (r: seq<Appointment>)
      reads this
      ensures |r| <= ItemsPerPage
    {
      Paging.Page(Shown(), currentPage, ItemsPerPage)
    }

    /** The page is at least 1 and, past the first, in range; the sort order is one of the two. */
    ghost predicate Valid()
      reads this
    {
      && 1 <= currentPage
      && (currentPage == 1 || currentPage <= TotalPages())
      && (sortOrder == "asc" || sortOrder == "desc")
    }

    /**
     * Mount. With no stored user email nothing is loaded; otherwise the
     * doctor with that email (if any) and that email's Pending appointments.
     */
    constructor (doctors: seq<Doctor>, patients: seq<Patient>, all: seq<Appointment>, userEmail: Option<string>)
      ensures Valid()
      ensures this.patients == patients && search == "" && sortOrder == "desc" && currentPage == 1
      ensures userEmail.None? || userEmail.value == "" ==> doctor.None? && myAppointments == []
      ensures userEmail.Some? && userEmail.value != "" ==>
        && doctor == FindDoctor(doctors, userEmail.value)
        && myAppointments == PendingFor(all, userEmail.value)
    {
      this.patients := patients;
      search, sortOrder, currentPage := "", "desc", 1;
      if userEmail.None? || userEmail.value == "" {
        doctor, myAppointments := None, [];
      } else {
        doctor := FindDoctor(doctors, userEmail.value);
        myAppointments := PendingFor(all, userEmail.value);
      }
    }

    /**
     * `handleAction(id, action)`; `confirmed` is the dialog's answer. Confirmed:
     * every record with that id gets ActionStatus(action) and no longer offers
     * actions; dismissed: nothing changes.
     */
    method HandleAction(id: int, action: string, confirmed: bool)
      requires Valid()
      modifies this`myAppointments
      ensures Valid()
      ensures confirmed ==> myAppointments == SetStatus(old(myAppointments), id, ActionStatus(action))
      ensures !confirmed ==> myAppointments == old(myAppointments)
      ensures |myAppointments| == |old(myAppointments)|
      ensures confirmed ==> forall i :: 0 <= i < |myAppointments| && myAppointments[i].id == id ==>
                !ActionsOffered(myAppointments[i])
    {
      if confirmed {
        HitsIgnoreStatus(myAppointments, patients, search, id, ActionStatus(action));
        myAppointments := SetStatus(myAppointments, id, ActionStatus(action));
      }
    }

    /** The search box: a new search and back to page 1. */
    method SetSearch(s: string)
      requires Valid()
      modifies this`search, this`currentPage
      ensures Valid()
      ensures search == s && currentPage == 1
    {
      search := s;
      currentPage := 1;
    }

    /** The sort button flips between "asc" and "desc". */
    method ToggleSort()
      requires Valid()
      modifies this`sortOrder
      ensures Valid()
      ensures sortOrder == (if old(sortOrder) == "asc" then "desc" else "asc")
    {
      sortOrder := if sortOrder == "asc" then "desc" else "asc";
    }

    /** `handlePageChange(page)`: only a page in 1..totalPages is taken. */
    method HandlePageChange(page: int)
      requires Valid()
      modifies this`currentPage
      ensures Valid()
      ensures currentPage == Paging.ChangePage(old(currentPage), page, TotalPages())
    {
      if page >= 1 && page <= TotalPages() {
        currentPage := page;
      }
    }
  }
}
